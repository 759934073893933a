/** Every interleaving of the pipeline keeps the tree accounted for. */
module PipelineSafety {
  import opened Tables
  import opened TaskStore
  import opened Reparse
  import opened SmtPipeline
  import opened PipelineInvariants
  import opened Wrappers

  /** What covered an account covers it still, and what was to be confirmed for a block is so still. */
  ghost predicate Keeps(w: World, v: World) {
    forall t, i | Covers(w, t, i) ::
      && Covers(v, t, i) && v.db.records[i].accountId == w.db.records[i].accountId
      && (w.db.tasks[t].At(NeedToWrite, Committed) ==>
            v.db.tasks[t].At(NeedToWrite, Committed) && v.db.tasks[t].outpoint == w.db.tasks[t].outpoint)
  }

  /** The writes of the two loops that settle a task. */
  predicate Settling(e: Event) {
    e.RollbackWriteEvent? || e.ConfirmWriteEvent?
  }

  lemma WroteBefore(w: World, e: Event, maxRetry: nat, t: TaskId)
    requires Enabled(w, e) && !Settling(e) && Wrote(Apply(w, e, maxRetry), t)
    ensures Wrote(w, t)
  {
    SameJobs(w, e, maxRetry);
    if OfRollback(e) || OfConfirm(e) {
      hide CloseTask, MarkRetry, MarkWriteComplete, SyncCheck;
    } else {
      hide Enabled, Apply;
    }
  }

  /** The row of a task answers after as before. */
  ghost predicate StillCovers(w: World, v: World, t: TaskId, i: nat)
    requires Covers(w, t, i)
  {
    && Covers(v, t, i) && v.db.records[i].accountId == w.db.records[i].accountId
    && (w.db.tasks[t].At(NeedToWrite, Committed) ==>
          v.db.tasks[t].At(NeedToWrite, Committed) && v.db.tasks[t].outpoint == w.db.tasks[t].outpoint)
  }

  lemma UntouchedCovers(w: World, v: World, t: TaskId, i: nat)
    requires Covers(w, t, i) && Untouched(w.db, v.db, t) && (Wrote(v, t) ==> Wrote(w, t))
    ensures StillCovers(w, v, t, i)
  {
  }

  lemma ParsedCovers(w: World, k: nat, t: TaskId, i: nat)
    requires Enabled(w, ParseEvent(k, Some(t))) && Covers(w, t, i)
    ensures StillCovers(w, ApplyParse(w, k, Some(t)), t, i)
  {
  }

  lemma MarkedCovers(w: World, e: Event, maxRetry: nat, t: TaskId, i: nat)
    requires WriteOk(w) && Enabled(w, e) && t in TouchedBy(w, e) && Covers(w, t, i)
    requires e.MarkRollbackEvent? || e.RejectEvent? || e.WriteStartEvent? || e.WriteBuildEvent? || e.WritePendingEvent?
    ensures StillCovers(w, Apply(w, e, maxRetry), t, i)
  {
    hide SameRoot, DefaultsCover;
  }

  lemma TouchedCovers(w: World, e: Event, maxRetry: nat, t: TaskId, i: nat)
    requires Core(w) && Enabled(w, e) && !Settling(e) && t in TouchedBy(w, e) && Covers(w, t, i)
    ensures StillCovers(w, Apply(w, e, maxRetry), t, i)
  {
    NotBeingSettled(w, e, t, i);
    assert WriteOk(w);
    if e.ParseEvent? {
      hide Core, StillCovers, Covers, ApplyParse;
      ParsedCovers(w, e.k, t, i);
    } else {
      hide Core, StillCovers, Covers, Enabled, Apply, WriteOk;
      MarkedCovers(w, e, maxRetry, t, i);
    }
  }

  lemma NotBeingSettled(w: World, e: Event, t: TaskId, i: nat)
    requires Enabled(w, e) && t in TouchedBy(w, e) && Covers(w, t, i)
    ensures !e.RollbackFinishEvent? && !e.ConfirmFinishEvent? && !e.NonceCloseEvent? && !e.CustomScriptCloseEvent?
  {
  }

  lemma EventKeeps(w: World, e: Event, maxRetry: nat)
    requires Core(w) && Enabled(w, e) && !Settling(e)
    ensures Keeps(w, Apply(w, e, maxRetry))
  {
    var v := Apply(w, e, maxRetry);
    OthersUntouched(w, e, maxRetry);
    forall t, i | Covers(w, t, i) ensures StillCovers(w, v, t, i) {
      if t in TouchedBy(w, e) {
        TouchedCovers(w, e, maxRetry, t, i);
      } else {
        if Wrote(v, t) {
          WroteBefore(w, e, maxRetry, t);
        }
        hide Core, Enabled, Apply, TouchedBy, Wrote;
        UntouchedCovers(w, v, t, i);
      }
    }
    hide Core, Enabled, Apply, TouchedBy, Covers;
  }

  // ---------- accounting across events ----------

  lemma KeepsAccounted(w: World, v: World, a: string)
    requires Keeps(w, v) && v.tree == w.tree && v.commits == w.commits && v.parsed == w.parsed
    ensures Accounted(w, a) ==> Accounted(v, a)
  {
  }

  lemma KeepsFresh(w: World, v: World, a: string, at: Option<nat>)
    requires Keeps(w, v) && v.commits == w.commits && v.parsed == w.parsed && Fresh(w, a, at)
    ensures Fresh(v, a, at)
  {
  }

  /** The part of a step that reads and settles nothing. */
  ghost predicate Elsewhere(w: World, v: World) {
    && v.tree == w.tree && v.commits == w.commits && v.parsed == w.parsed && v.info == w.info
    && (v.confirm.ConfirmChecked? ==>
       v.confirm == w.confirm || v.confirm.values == Restrict(w.info, v.confirm.values.Keys))
  }

  lemma ElsewhereStaysAccounted(w: World, v: World)
    requires Keeps(w, v) && Elsewhere(w, v) && AllFresh(w) && AllAccounted(w)
    ensures AllAccounted(v) && AllFresh(v)
  {
    hide Keeps, Fresh, Accounted;
    forall a ensures Accounted(v, a) {
      KeepsAccounted(w, v, a);
    }
    forall a ensures Fresh(v, a, InfoOf(v.info, a)) {
      KeepsFresh(w, v, a, InfoOf(w.info, a));
    }
    if v.confirm.ConfirmChecked? {
      forall a | a in v.confirm.values ensures Fresh(v, a, Some(v.confirm.values[a])) {
        assert Fresh(w, a, InfoOf(w.info, a));
        assert v.confirm == w.confirm || Some(v.confirm.values[a]) == InfoOf(w.info, a);
        KeepsFresh(w, v, a, Some(v.confirm.values[a]));
      }
    }
  }

  /** Events that leave the tree, the chain and what was read of it alone. */
  predicate OnTables(e: Event) {
    !(e.CommitEvent? || e.SyncEvent? || e.ParseEvent? || e.WriteTreeEvent? || Settling(e))
  }

  lemma TablesOnly(w: World, e: Event, maxRetry: nat)
    requires Enabled(w, e) && OnTables(e)
    ensures Elsewhere(w, Apply(w, e, maxRetry))
  {
    hide NewRecord, Distribute, MarkRollback, MarkRejected, CloseTask, CloseRecords, MarkWriting, SetOutpoint,
      MarkPending;
    hide MarkRetry, MarkWriteComplete, SameRoot, SyncCheck, NothingInProgress, LiveCellKnown;
  }

  lemma TablesStayAccounted(w: World, e: Event, maxRetry: nat)
    requires Inv(w) && Enabled(w, e) && OnTables(e)
    ensures AllAccounted(Apply(w, e, maxRetry)) && AllFresh(Apply(w, e, maxRetry))
  {
    EventKeeps(w, e, maxRetry);
    TablesOnly(w, e, maxRetry);
    hide Apply, Enabled, Keeps, Elsewhere;
    ElsewhereStaysAccounted(w, Apply(w, e, maxRetry));
  }

  // ---------- the chain moves ----------

  lemma CommitStaysAccounted(w: World, c: Commit)
    requires Inv(w) && CommitAllowed(w, c)
    ensures var v := w.(commits := w.commits + [c]);
            AllAccounted(v) && AllFresh(v)
  {
    var v := w.(commits := w.commits + [c]);
    assert v.commits[..|w.commits|] == w.commits;
    hide TablesInv, TaskOrigins, DigestsPresent, PendingOk, WriteOk, RollbackOk, ConfirmOk;
    assert Keeps(w, v);
    forall a ensures Accounted(v, a) {
      if Touches(c, a) {
        assert Touches(v.commits[|w.commits|], a);
      } else {
        CommitElsewhere(w, v, a);
      }
    }
    forall a, at | Fresh(w, a, at) ensures Fresh(v, a, at) {
      CommitFresh(w, v, c, a, at);
    }
  }

  lemma CommitElsewhere(w: World, v: World, a: string)
    requires Keeps(w, v) && Accounted(w, a) && v.tree == w.tree && v.parsed == w.parsed
    requires |v.commits| == |w.commits| + 1 && v.commits[..|w.commits|] == w.commits
             && !Touches(v.commits[|w.commits|], a)
    ensures Accounted(v, a)
  {
  }

  lemma CommitFresh(w: World, v: World, c: Commit, a: string, at: Option<nat>)
    requires Keeps(w, v) && v == w.(commits := w.commits + [c]) && w.parsed <= |w.commits| && Fresh(w, a, at)
    ensures Fresh(v, a, at)
  {
  }

  lemma SyncStaysAccounted(w: World, a: string, k: nat)
    requires Inv(w) && Enabled(w, SyncEvent(a, k))
    ensures var v := w.(info := w.info[a := k]);
            AllAccounted(v) && AllFresh(v)
  {
    var v := w.(info := w.info[a := k]);
    hide TablesInv, TaskOrigins, DigestsPresent, PendingOk, WriteOk, RollbackOk, ConfirmOk;
    assert Keeps(w, v);
    forall b ensures Accounted(v, b) {
      KeepsAccounted(w, v, b);
    }
    forall b, at | Fresh(w, b, at) ensures Fresh(v, b, at) {
      KeepsFresh(w, v, b, at);
    }
    assert Fresh(w, a, InfoOf(w.info, a));
    assert Fresh(v, a, Some(k));
    forall b ensures Fresh(v, b, InfoOf(v.info, b)) {
      assert Fresh(w, b, InfoOf(w.info, b));
    }
  }

  // ---------- parsing ----------

  lemma {:induction false} LeafInIff(subAccounts: seq<SubAccount>, a: string)
    ensures LeafIn(subAccounts, a).Some? <==> exists s :: s in subAccounts && s.accountId == a
    decreases |subAccounts|
  {
    if subAccounts != [] {
      var init, last := subAccounts[..|subAccounts| - 1], subAccounts[|subAccounts| - 1];
      LeafInIff(init, a);
      assert forall s :: s in subAccounts <==> s in init || s == last;
    }
  }

  lemma DigestNew(w: World)
    requires ChainOk(w) && TaskOrigins(w) && w.parsed < |w.commits|
    ensures ChainTaskId(w.commits[w.parsed]) !in w.db.tasks
  {
  }

  /** The first parse of a commit leaves a chain task that answers for every account it touches. */
  lemma OwnParseCovers(w: World, t: TaskId, a: string)
    requires PendingOk(w) && RollbackOk(w) && ConfirmOk(w) && ChainOk(w) && w.parsed < |w.commits|
    requires t in Awaiting(w.db.tasks, w.commits[w.parsed]) && Touches(w.commits[w.parsed], a)
    requires UpdateToChainTask(w.db, t, w.commits[w.parsed].blockNumber).Some?
    ensures ToConfirm(ApplyParse(w, w.parsed, Some(t)), a, w.parsed)
  {
    var c, v := w.commits[w.parsed], ApplyParse(w, w.parsed, Some(t));
    LeafInIff(c.subAccounts, a);
    var s :| s in c.subAccounts && s.accountId == a;
    assert HasDefault(w.db, t, a);
    var i :| HasRow(w.db, t, i) && w.db.records[i].recordType == RecordDefault && w.db.records[i].accountId == a;
    assert Covers(v, t, i);
  }

  lemma NewChainRow(db: Db, c: Commit, s: SubAccount) returns (i: nat)
    requires TablesInv(db) && ChainTaskId(c) !in db.tasks && s in c.subAccounts && !KeyUsed(db.records, ChainKey(c, s))
    ensures HasRow(CreateChainTask(db, c), ChainTaskId(c), i)
    ensures CreateChainTask(db, c).records[i].recordType == RecordChain
    ensures CreateChainTask(db, c).records[i].accountId == s.accountId
    ensures CreateChainTask(db, c).tasks == db.tasks[ChainTaskId(c) := ChainTask(c)]
  {
    forall i | i in db.records ensures RowMatches(db.tasks, db.records[i]) {}
    InsertKeepsRows(db, c, |c.subAccounts|);
    InsertBrings(db, c);
    var after := CreateChainTask(db, c).records;
    i :| i in after && after[i].Key() == ChainKey(c, s);
  }

  lemma ForeignParseCovers(w: World, s: SubAccount)
    requires TablesInv(w.db) && RollbackOk(w) && ConfirmOk(w) && ChainOk(w) && TaskOrigins(w) && w.parsed < |w.commits|
    requires s in w.commits[w.parsed].subAccounts && !KeyUsed(w.db.records, ChainKey(w.commits[w.parsed], s))
    ensures ToConfirm(ApplyParse(w, w.parsed, None), s.accountId, w.parsed)
  {
    var c, v := w.commits[w.parsed], ApplyParse(w, w.parsed, None);
    DigestNew(w);
    var i := NewChainRow(w.db, c, s);
    hide CreateChainTask, TablesInv, TaskOrigins;
    assert v.db == CreateChainTask(w.db, c);
    assert Covers(v, ChainTaskId(c), i);
  }

  /** The rows the commit about to be parsed would bring for the account are there already, and are ignored. */
  ghost predicate RowsTaken(w: World, a: string)
    requires w.parsed < |w.commits|
  {
    var c := w.commits[w.parsed];
    forall s | s in c.subAccounts && s.accountId == a :: KeyUsed(w.db.records, ChainKey(c, s))
  }

  /** Every row read from t_smt_info for the account is from commit k. */
  predicate Heard(w: World, a: string, k: nat) {
    && InfoOf(w.info, a) == Some(k)
    && (w.confirm.ConfirmChecked? && a in w.confirm.values ==> w.confirm.values[a] == k)
  }

  /** The account does not depend on a row of the commit about to be parsed. */
  ghost predicate AlreadyKnown(w: World, a: string)
    requires w.parsed < |w.commits|
  {
    || (exists k :: w.parsed < k < |w.commits| && Touches(w.commits[k], a))
    || (Heard(w, a, w.parsed) && (LeafAt(w.tree, a) == ChainLeaf(w.commits, a) || Covered(w, a)))
  }

  /** No account is left out for want of a row. */
  ghost predicate RowsNotMissed(w: World)
    requires w.parsed < |w.commits|
  {
    forall a | Touches(w.commits[w.parsed], a) && RowsTaken(w, a) :: AlreadyKnown(w, a)
  }

  lemma NoRowFor(db: Db, c: Commit, a: string)
    requires TablesInv(db) && ChainTaskId(c) !in db.tasks
    requires forall s | s in c.subAccounts && s.accountId == a :: KeyUsed(db.records, ChainKey(c, s))
    ensures var b := CreateChainTask(db, c);
            forall i | i in b.records && b.records[i].accountId == a :: i in db.records && b.records[i] == db.records[i]
    ensures CreateChainTask(db, c).tasks == db.tasks[ChainTaskId(c) := ChainTask(c)]
    ensures forall i :: !HasRow(db, ChainTaskId(c), i)
  {
    forall i | i in db.records ensures RowMatches(db.tasks, db.records[i]) {}
    InsertKeepsRows(db, c, |c.subAccounts|);
    InsertBrings(db, c);
    hide InsertIgnore;
  }

  /** A commit whose rows for an account are ignored gets no task that answers for the account. */
  lemma IgnoredNotConfirmed(w: World, a: string)
    requires Core(w) && w.parsed < |w.commits| && RowsTaken(w, a)
    ensures !ToConfirm(ApplyParse(w, w.parsed, None), a, w.parsed)
    ensures Covered(ApplyParse(w, w.parsed, None), a) ==> Covered(w, a)
  {
    var c, v := w.commits[w.parsed], ApplyParse(w, w.parsed, None);
    DigestNew(w);
    NoRowFor(w.db, c, a);
    hide CreateChainTask, TablesInv;
    forall t, i | Covers(v, t, i) && v.db.records[i].accountId == a
      ensures Covers(w, t, i) && w.db.records[i].accountId == a
      ensures !(v.db.tasks[t].At(NeedToWrite, Committed) && v.db.tasks[t].outpoint == c.outpoint)
    {
      assert t != ChainTaskId(c) && OriginOk(w, t) && StatusOk(w.db.tasks[t]);
    }
  }

  lemma ParseResult(w: World, k: nat, self: Option<TaskId>)
    requires k < |w.commits| && k <= w.parsed
    ensures var v := ApplyParse(w, k, self);
            && v.tree == w.tree && v.commits == w.commits && v.info == w.info && v.confirm == w.confirm
            && (v.parsed == w.parsed || (k == w.parsed && v.parsed == k + 1 && ParseAs(w.db, w.commits[k], self).Some?))
            && (v.parsed == w.parsed ==> Elsewhere(w, v))
  {
  }

  lemma ParseStaysAccounted(w: World, k: nat, self: Option<TaskId>)
    requires Inv(w) && Enabled(w, ParseEvent(k, self)) && (k == w.parsed ==> self.Some? || RowsNotMissed(w))
    ensures AllAccounted(ApplyParse(w, k, self)) && AllFresh(ApplyParse(w, k, self))
  {
    var v := ApplyParse(w, k, self);
    EventKeeps(w, ParseEvent(k, self), 0);
    ParseResult(w, k, self);
    assert AllFresh(w) && AllAccounted(w);
    hide Keeps, ApplyParse, ParseAs, AllFresh, AllAccounted, SelfTask, ToConfirm, Touches, Elsewhere, RowsTaken,
      AlreadyKnown;
    if v.parsed == w.parsed {
      ElsewhereStaysAccounted(w, v);
    } else {
      forall a | Touches(w.commits[k], a) ensures ToConfirm(v, a, k) || AlreadyKnown(w, a) {
        ParsedToConfirm(w, self, a);
      }
      hide Inv, RowsNotMissed;
      NextParsedAccounted(w, v);
    }
  }

  lemma ParsedToConfirm(w: World, self: Option<TaskId>, a: string)
    requires Core(w) && w.parsed < |w.commits| && SelfTask(w.db, w.commits[w.parsed], self)
    requires ParseAs(w.db, w.commits[w.parsed], self).Some? && Touches(w.commits[w.parsed], a)
    ensures ToConfirm(ApplyParse(w, w.parsed, self), a, w.parsed) || (self.None? && RowsTaken(w, a))
  {
    hide ToConfirm, ApplyParse, WriteOk, DigestsPresent;
    if self.Some? {
      OwnParseCovers(w, self.value, a);
    } else if !RowsTaken(w, a) {
      var c := w.commits[w.parsed];
      var s :| s in c.subAccounts && s.accountId == a && !KeyUsed(w.db.records, ChainKey(c, s));
      ForeignParseCovers(w, s);
    }
  }

  lemma NextParsedAccounted(w: World, v: World)
    requires Keeps(w, v) && AllAccounted(w) && AllFresh(w) && w.parsed < |w.commits|
    requires v.tree == w.tree && v.commits == w.commits && v.info == w.info && v.confirm == w.confirm
             && v.parsed == w.parsed + 1
    requires forall a | Touches(w.commits[w.parsed], a) :: ToConfirm(v, a, w.parsed) || AlreadyKnown(w, a)
    ensures AllAccounted(v) && AllFresh(v)
  {
    var u := v.(parsed := w.parsed);
    assert Keeps(w, u);
    ElsewhereStaysAccounted(w, u);
    forall a ensures Accounted(v, a) {
      assert Accounted(u, a);
      hide Accounted, Fresh, Touches;
      if AlreadyKnown(w, a) {
        KnownStays(w, u, a);
      }
      ParsedAccounted(u, v, a);
    }
    hide Keeps, Accounted, Touches, ToConfirm;
    forall a, at | Fresh(u, a, at) && (AlreadyKnown(w, a) ==> KnownAt(w, a, at)) ensures Fresh(v, a, at) {
      ParsedFresh(w, u, v, a, at);
    }
  }

  lemma KnownStays(w: World, u: World, a: string)
    requires Keeps(w, u) && w.parsed < |w.commits| && AlreadyKnown(w, a)
    requires u.tree == w.tree && u.commits == w.commits && u.info == w.info && u.confirm == w.confirm
             && u.parsed == w.parsed
    ensures AlreadyKnown(u, a)
  {
    hide Touches, ChainLeaf, LeafAt;
  }

  lemma ParsedAccounted(u: World, v: World, a: string)
    requires v == u.(parsed := u.parsed + 1) && u.parsed < |u.commits| && Accounted(u, a)
    requires Touches(u.commits[u.parsed], a) ==> ToConfirm(v, a, u.parsed) || AlreadyKnown(u, a)
    ensures Accounted(v, a)
  {
    if Covered(u, a) {
      var t, i :| Covers(u, t, i) && u.db.records[i].accountId == a;
      assert Covers(v, t, i);
    }
  }

  /** The row from commit `at` is among those read for an account already known. */
  predicate KnownAt(w: World, a: string, at: Option<nat>) {
    at == InfoOf(w.info, a) || (w.confirm.ConfirmChecked? && a in w.confirm.values && at == Some(w.confirm.values[a]))
  }

  lemma ParsedFresh(w: World, u: World, v: World, a: string, at: Option<nat>)
    requires u.parsed == w.parsed && u.commits == w.commits && v == u.(parsed := u.parsed + 1) && u.parsed < |u.commits|
             && Fresh(u, a, at)
    requires Touches(u.commits[u.parsed], a) ==> ToConfirm(v, a, u.parsed) || (AlreadyKnown(w, a) && KnownAt(w, a, at))
    ensures Fresh(v, a, at)
  {
  }

  /**
    Parsing a commit of somebody else keeps every account accounted for exactly when it misses no row: the rows
    of the record table are unique by account, nonce, type and block, and one already there is not inserted again.
   */
  lemma ParseAccountedIff(w: World)
    requires Inv(w) && Enabled(w, ParseEvent(w.parsed, None))
    ensures var v := ApplyParse(w, w.parsed, None);
            AllAccounted(v) && AllFresh(v) <==> RowsNotMissed(w)
  {
    var v := ApplyParse(w, w.parsed, None);
    if RowsNotMissed(w) {
      ParseStaysAccounted(w, w.parsed, None);
    } else {
      var a :| Touches(w.commits[w.parsed], a) && RowsTaken(w, a) && !AlreadyKnown(w, a);
      IgnoredNotConfirmed(w, a);
      hide Inv, RowsNotMissed, RowsTaken, ToConfirm, Covered, ChainLeaf, LeafAt;
      assert v.tree == w.tree && v.commits == w.commits && v.info == w.info && v.confirm == w.confirm
             && v.parsed == w.parsed + 1;
      MissedRow(w, v, a);
    }
  }

  /**
    Rows that came with the nonces of the chain, which gives an account no nonce twice in a block, are in nobody's
    way.
   */
  lemma ChainNoncesMissNothing(w: World)
    requires w.parsed < |w.commits|
    requires forall i | i in w.db.records && w.db.records[i].recordType == RecordChain ::
               exists k, s :: 0 <= k < w.parsed && s in w.commits[k].subAccounts
                      && w.db.records[i].Key() == ChainKey(w.commits[k], s)
    requires forall k, r, s | 0 <= k < w.parsed && w.commits[k].blockNumber == w.commits[w.parsed].blockNumber
                              && r in w.commits[k].subAccounts && s in w.commits[w.parsed].subAccounts
                                 && r.accountId == s.accountId ::
               r.nonce != s.nonce
    ensures RowsNotMissed(w)
  {
    forall a | Touches(w.commits[w.parsed], a) ensures !RowsTaken(w, a) {
      LeafInIff(w.commits[w.parsed].subAccounts, a);
      var s :| s in w.commits[w.parsed].subAccounts && s.accountId == a;
      assert !KeyUsed(w.db.records, ChainKey(w.commits[w.parsed], s));
    }
  }

  lemma MissedRow(w: World, v: World, a: string)
    requires w.parsed < |w.commits| && Touches(w.commits[w.parsed], a) && !AlreadyKnown(w, a)
    requires v.tree == w.tree && v.commits == w.commits && v.info == w.info && v.confirm == w.confirm
             && v.parsed == w.parsed + 1
    requires !ToConfirm(v, a, w.parsed) && (Covered(v, a) ==> Covered(w, a))
    ensures !(Accounted(v, a) && Fresh(v, a, InfoOf(v.info, a))
              && (v.confirm.ConfirmChecked? && a in v.confirm.values ==> Fresh(v, a, Some(v.confirm.values[a]))))
  {
    assert LastTouch(w.commits, a) == Some(w.parsed);
    hide ToConfirm, Covered, ChainLeaf, LeafAt, Touches;
  }

  // ---------- the tree moves ----------

  lemma {:induction false} UpdateLeavesAt(tree: Leaves, subAccounts: seq<SubAccount>, a: string)
    ensures LeafAt(UpdateLeaves(tree, subAccounts), a)
         == if LeafIn(subAccounts, a).Some? then LeafIn(subAccounts, a).value else LeafAt(tree, a)
    decreases |subAccounts|
  {
    if subAccounts != [] {
      UpdateLeavesAt(tree, subAccounts[..|subAccounts| - 1], a);
    }
  }

  lemma TreeWriteStaysAccounted(w: World, subAccounts: seq<SubAccount>)
    requires Inv(w) && Enabled(w, WriteTreeEvent(subAccounts))
    ensures var v := w.(tree := UpdateLeaves(w.tree, subAccounts), write := WriteTree(w.write.task, subAccounts));
            AllAccounted(v) && AllFresh(v)
  {
    var t := w.write.task;
    var u := w.(write := WriteTree(t, subAccounts));
    var v := u.(tree := UpdateLeaves(w.tree, subAccounts));
    assert WriteOk(w) && RollbackOk(w) && ConfirmOk(w) && AllAccounted(w) && AllFresh(w);
    hide TablesInv, ChainOk, TaskOrigins, DigestsPresent, PendingOk;
    assert Keeps(w, u) && Keeps(u, v);
    ElsewhereStaysAccounted(w, u);
    forall a ensures Accounted(v, a) {
      UpdateLeavesAt(w.tree, subAccounts, a);
      LeafInIff(subAccounts, a);
      if LeafIn(subAccounts, a).Some? {
        var i :| HasRow(w.db, t, i) && w.db.records[i].recordType == RecordDefault && w.db.records[i].accountId == a;
        assert Covers(v, t, i);
      } else {
        SameLeafAccounted(u, v, a);
      }
    }
    forall a, at | Fresh(u, a, at) ensures Fresh(v, a, at) {
      KeepsFresh(u, v, a, at);
    }
  }

  lemma SameLeafAccounted(u: World, v: World, a: string)
    requires Keeps(u, v) && v.commits == u.commits && v.parsed == u.parsed && LeafAt(v.tree, a) == LeafAt(u.tree, a)
    requires Accounted(u, a)
    ensures Accounted(v, a)
  {
  }

  /** Between the write of a loop and the end of its job, only the task it settles stops answering. */
  ghost predicate Settles(w: World, v: World, t: TaskId) {
    && v.commits == w.commits && v.parsed == w.parsed && v.info == w.info && v.db == w.db
    && (forall u | Wrote(v, u) :: Wrote(w, u) || u == t)
  }

  lemma OthersToConfirm(w: World, v: World, t: TaskId, a: string, j: nat)
    requires Settles(w, v, t) && ToConfirm(w, a, j)
    requires !(t in w.db.tasks && w.db.tasks[t].At(NeedToWrite, Committed)
             && w.db.tasks[t].outpoint == w.commits[j].outpoint)
    ensures ToConfirm(v, a, j)
  {
  }

  lemma OthersAccounted(w: World, v: World, t: TaskId, a: string)
    requires Settles(w, v, t) && Accounted(w, a) && LeafAt(v.tree, a) == LeafAt(w.tree, a)
    requires forall i | HasRow(w.db, t, i) && w.db.records[i].recordType != RecordClosed ::
             w.db.records[i].accountId != a
    ensures Accounted(v, a)
  {
    hide LeafAt, ChainLeaf;
    if Covered(w, a) {
      var u, i :| Covers(w, u, i) && w.db.records[i].accountId == a;
      assert Covers(v, u, i);
    }
  }

  lemma WriteBackAt(tree: Leaves, commits: seq<Commit>, accounts: set<string>, values: map<string, nat>, a: string)
    ensures LeafAt(WriteBack(tree, commits, accounts, values), a)
         == if a in accounts then InfoLeaf(commits, values, a) else LeafAt(tree, a)
  {
  }

  ghost function AfterRollbackWrite(w: World): World
    requires w.rollback.RollbackRead?
  {
    w.(tree := WriteBack(w.tree, w.commits, w.rollback.accounts, w.rollback.values),
       rollback := RollbackWrote(w.rollback.task, w.rollback.list))
  }

  lemma RollbackWriteSettles(w: World)
    requires Core(w) && AllFresh(w) && w.rollback.RollbackRead?
    ensures Settles(w, AfterRollbackWrite(w), w.rollback.task) && AllFresh(AfterRollbackWrite(w))
  {
    var t, v := w.rollback.task, AfterRollbackWrite(w);
    assert RollbackOk(w);
    hide Core, Lists;
    forall a, at | Fresh(w, a, at) ensures Fresh(v, a, at) {
      var j := LastTouch(w.commits, a);
      if j.Some? && ToConfirm(w, a, j.value) {
        OthersToConfirm(w, v, t, a, j.value);
      }
    }
  }

  /** An account answered for by a task other than t. */
  ghost predicate CoveredByOther(w: World, t: TaskId, a: string) {
    exists u, i :: u != t && Covers(w, u, i) && w.db.records[i].accountId == a
  }

  lemma OtherCovers(w: World, v: World, t: TaskId, a: string)
    requires Settles(w, v, t) && Wrote(v, t) && forall u | Wrote(w, u) :: Wrote(v, u)
    ensures Covered(v, a) <==> CoveredByOther(w, t, a)
  {
    if Covered(v, a) {
      var u, i :| Covers(v, u, i) && v.db.records[i].accountId == a;
      assert Covers(w, u, i);
    }
    if CoveredByOther(w, t, a) {
      var u, i :| u != t && Covers(w, u, i) && w.db.records[i].accountId == a;
      assert Covers(v, u, i);
    }
  }

  /** Either t_smt_info now has the chain's leaf, or a task other than the one rolled back answers for the account. */
  lemma InfoNow(w: World, t: TaskId, a: string)
    requires ChainOk(w) && Fresh(w, a, InfoOf(w.info, a)) && !TaskAt(w.db, t, NeedToWrite, Committed)
    ensures InfoLeaf(w.commits, w.info, a) == ChainLeaf(w.commits, a) || Unparsed(w, a) || CoveredByOther(w, t, a)
  {
  }

  /**
    Each leaf a rollback is about to write is still the one t_smt_info gives, or something else answers for the
    account.
   */
  ghost predicate ReadIsCurrent(w: World)
    requires w.rollback.RollbackRead?
  {
    forall a | a in w.rollback.accounts ::
      || InfoLeaf(w.commits, w.rollback.values, a) == InfoLeaf(w.commits, w.info, a)
      || Unparsed(w, a) || CoveredByOther(w, w.rollback.task, a)
  }

  /**
    A rollback reads t_smt_info before it takes the lock. Its write leaves the tree accounted for exactly when each
    leaf it read is still the one t_smt_info gives, or the account is in an unparsed commit or another open task.
   */
  lemma RollbackWriteAccountedIff(w: World)
    requires Inv(w) && w.rollback.RollbackRead?
    ensures AllAccounted(AfterRollbackWrite(w)) <==> ReadIsCurrent(w)
  {
    var t, v := w.rollback.task, AfterRollbackWrite(w);
    RollbackWriteSettles(w);
    assert RollbackOk(w) && ChainOk(w) && AllFresh(w) && AllAccounted(w);
    hide Inv, Core, Lists, ChainOk, Fresh, LeafAt, ChainLeaf, InfoLeaf, WriteBack, Touches;
    forall a ensures a in w.rollback.accounts ==>
                       (Accounted(v, a) <==> InfoLeaf(w.commits, w.rollback.values, a) == InfoLeaf(w.commits, w.info, a)
                                             || Unparsed(w, a) || CoveredByOther(w, t, a))
    {
      WriteBackAt(w.tree, w.commits, w.rollback.accounts, w.rollback.values, a);
      OtherCovers(w, v, t, a);
      assert Fresh(w, a, InfoOf(w.info, a));
      InfoNow(w, t, a);
    }
    forall a | a !in w.rollback.accounts ensures Accounted(v, a) {
      WriteBackAt(w.tree, w.commits, w.rollback.accounts, w.rollback.values, a);
      OthersAccounted(w, v, t, a);
    }
  }

  // ---------- several commits in a block ----------

  /** No later commit of k's block touches the account. */
  ghost predicate EndsBlock(commits: seq<Commit>, k: nat, a: string)
    requires k < |commits|
  {
    forall j | k < j < |commits| && commits[j].blockNumber == commits[k].blockNumber :: !Touches(commits[j], a)
  }

  /** The leaf of commit k is the one the account has at the end of k's block. */
  ghost predicate LeafEndsBlock(commits: seq<Commit>, k: nat, a: string)
    requires k < |commits|
  {
    forall j | k <= j < |commits| && commits[j].blockNumber == commits[k].blockNumber && Touches(commits[j], a)
               && EndsBlock(commits, j, a) ::
      LeafOfCommit(commits[j], a) == LeafOfCommit(commits[k], a)
  }

  /** A task other than t is still to confirm the account's last commit. */
  ghost predicate ConfirmedByOther(w: World, t: TaskId, a: string) {
    var j := LastTouch(w.commits, a);
    j.Some? &&
    exists u, i ::
           u != t && Covers(w, u, i) && w.db.records[i].accountId == a && w.db.tasks[u].At(NeedToWrite, Committed)
                   && w.db.tasks[u].outpoint == w.commits[j.value].outpoint
  }

  lemma TaskBlock(w: World, t: TaskId, j: nat)
    requires ChainOk(w) && TaskOrigins(w) && Statuses(w.db) && TaskAt(w.db, t, NeedToWrite, Committed)
    requires j < |w.commits| && w.db.tasks[t].outpoint == w.commits[j].outpoint
    ensures w.db.tasks[t].blockNumber == w.commits[j].blockNumber
  {
    assert StatusOk(w.db.tasks[t]) && OriginOk(w, t);
  }

  /** An account last touched in a block after t's is left to another task. */
  lemma LaterBlockToConfirm(w: World, t: TaskId, a: string, k: nat)
    requires ChainOk(w) && TaskOrigins(w) && Statuses(w.db) && TaskAt(w.db, t, NeedToWrite, Committed)
    requires k < |w.commits| && w.commits[k].blockNumber >= w.db.tasks[t].blockNumber && Fresh(w, a, Some(k))
    requires LastTouch(w.commits, a).Some?
             && w.commits[LastTouch(w.commits, a).value].blockNumber > w.commits[k].blockNumber
    ensures Unparsed(w, a) || ConfirmedByOther(w, t, a)
  {
    var j := LastTouch(w.commits, a).value;
    if j < w.parsed {
      var u, i :| Covers(w, u, i) && w.db.records[i].accountId == a && w.db.tasks[u].At(NeedToWrite, Committed)
                  && w.db.tasks[u].outpoint == w.commits[j].outpoint;
      TaskBlock(w, u, j);
    }
  }

  /** Whether a leaf that a confirmation writes leaves its account accounted for. */
  lemma ConfirmedLeafIff(w: World, v: World, t: TaskId, a: string, k: nat)
    requires ChainOk(w) && TaskOrigins(w) && Statuses(w.db) && TaskAt(w.db, t, NeedToWrite, Committed)
    requires k < |w.commits| && w.commits[k].blockNumber >= w.db.tasks[t].blockNumber && Touches(w.commits[k], a)
    requires Fresh(w, a, Some(k)) && v.commits == w.commits && v.parsed == w.parsed
    requires LeafAt(v.tree, a) == LeafOfCommit(w.commits[k], a) && (Covered(v, a) <==> CoveredByOther(w, t, a))
    ensures Accounted(v, a) <==> LeafEndsBlock(w.commits, k, a) || Unparsed(w, a) || CoveredByOther(w, t, a)
  {
    var j := LastTouch(w.commits, a).value;
    assert k <= j && w.commits[k].blockNumber <= w.commits[j].blockNumber;
    if w.commits[k].blockNumber < w.commits[j].blockNumber {
      LaterBlockToConfirm(w, t, a, k);
    } else {
      LastEndsBlock(w, a, k, j);
    }
    hide ChainOk, TaskOrigins, Statuses, Fresh, Touches, LeafEndsBlock, LeafOfCommit, LeafAt;
  }

  lemma LastEndsBlock(w: World, a: string, k: nat, j: nat)
    requires ChainOk(w) && k <= j < |w.commits| && LastTouch(w.commits, a) == Some(j)
    requires w.commits[k].blockNumber == w.commits[j].blockNumber
    ensures LeafEndsBlock(w.commits, k, a) <==> LeafOfCommit(w.commits[k], a) == LeafOfCommit(w.commits[j], a)
  {
    assert EndsBlock(w.commits, j, a);
    forall i | k <= i < |w.commits| && w.commits[i].blockNumber == w.commits[k].blockNumber && Touches(w.commits[i], a)
               && EndsBlock(w.commits, i, a)
      ensures i == j
    {
      assert i <= j;
    }
    hide LeafOfCommit;
  }

  /** Whether a confirmation leaves its account with something still to come if its row is not the last word. */
  lemma ConfirmedRowIff(w: World, v: World, t: TaskId, a: string)
    requires ChainOk(w) && TaskOrigins(w) && Statuses(w.db) && SyncedRows(w, t)
    requires Settles(w, v, t) && Wrote(v, t) && (forall u | Wrote(w, u) :: Wrote(v, u))
             && Fresh(w, a, InfoOf(w.info, a))
    requires a in AccountsOf(w.db, t)
    ensures Fresh(v, a, InfoOf(w.info, a)) <==>
            a in w.info && w.info[a] < |w.commits|
              && (EndsBlock(w.commits, w.info[a], a) || Unparsed(w, a) || ConfirmedByOther(w, t, a))
  {
    var i :| HasRow(w.db, t, i) && w.db.records[i].accountId == a;
    var k, j := w.info[a], LastTouch(w.commits, a).value;
    assert k <= j && w.commits[k].blockNumber <= w.commits[j].blockNumber && Touches(w.commits[j], a);
    hide SyncedRows;
    if ConfirmedByOther(w, t, a) {
      OthersStillConfirm(w, v, t, a, j);
    } else {
      OnlyOthersConfirm(w, v, t, a, j);
      if w.commits[k].blockNumber < w.commits[j].blockNumber {
        LaterBlockToConfirm(w, t, a, k);
      }
    }
    hide Settles, ToConfirm, ConfirmedByOther, TaskOrigins, Statuses;
  }

  lemma OnlyOthersConfirm(w: World, v: World, t: TaskId, a: string, j: nat)
    requires Settles(w, v, t) && Wrote(v, t) && (forall u | Wrote(w, u) :: Wrote(v, u))
             && LastTouch(w.commits, a) == Some(j)
    ensures ToConfirm(v, a, j) ==> ConfirmedByOther(w, t, a)
  {
    if ToConfirm(v, a, j) {
      var u, i :| Covers(v, u, i) && v.db.records[i].accountId == a && v.db.tasks[u].At(NeedToWrite, Committed)
                  && v.db.tasks[u].outpoint == v.commits[j].outpoint;
      assert Covers(w, u, i);
    }
  }

  lemma OthersStillConfirm(w: World, v: World, t: TaskId, a: string, j: nat)
    requires Settles(w, v, t) && ConfirmedByOther(w, t, a) && LastTouch(w.commits, a) == Some(j)
    ensures ToConfirm(v, a, j)
  {
  }

  /** An account the task has no row for keeps what is to come. */
  lemma ElsewhereStaysFresh(w: World, v: World, t: TaskId, a: string, at: Option<nat>)
    requires Settles(w, v, t) && Fresh(w, a, at) && a !in AccountsOf(w.db, t)
    ensures Fresh(v, a, at)
  {
    var j := LastTouch(w.commits, a);
    if j.Some? && ToConfirm(w, a, j.value) {
      var u, i :| Covers(w, u, i) && w.db.records[i].accountId == a && w.db.tasks[u].At(NeedToWrite, Committed)
                  && w.db.tasks[u].outpoint == w.commits[j.value].outpoint;
      assert Covers(v, u, i);
    }
  }

  /**
    Each row read gives the leaf its account has at the end of the row's block, or something else answers for the
    account.
   */
  ghost predicate RowsEndBlocks(w: World)
    requires w.confirm.ConfirmChecked?
  {
    forall a | a in w.confirm.values :: w.confirm.values[a] < |w.commits| &&
      (LeafEndsBlock(w.commits, w.confirm.values[a], a) || Unparsed(w, a) || CoveredByOther(w, w.confirm.task, a))
  }

  /**
    Each row of t_smt_info is the last of its block, or the account's last commit is left to the parser or another
    task.
   */
  ghost predicate InfoEndsBlocks(w: World)
    requires w.confirm.ConfirmChecked?
  {
    forall a | a in AccountsOf(w.db, w.confirm.task) :: a in w.info && w.info[a] < |w.commits| &&
      (EndsBlock(w.commits, w.info[a], a) || Unparsed(w, a) || ConfirmedByOther(w, w.confirm.task, a))
  }

  /** The cell on the chain is found, and the roots are equal. */
  ghost predicate ConfirmSkips(w: World, answered: bool) {
    answered && LiveCellToConfirm(w.db, w.commits) && SameRoot(w.tree, w.commits)
  }

  /**
    The sync check compares block numbers only, and a failed query for the cell on the chain is only logged. A
    confirmation's write leaves the tree accounted for exactly when it is skipped, or each leaf it writes is the one
    its account has at the end of that block, or the account is in an unparsed commit or another open task.
   */
  lemma ConfirmWriteAccountedIff(w: World, answered: bool)
    requires Inv(w) && w.confirm.ConfirmChecked?
    ensures AllAccounted(ApplyConfirmWrite(w, answered)) <==> ConfirmSkips(w, answered) || RowsEndBlocks(w)
  {
    var t, values, v := w.confirm.task, w.confirm.values, ApplyConfirmWrite(w, answered);
    assert ConfirmOk(w) && ChainOk(w) && TaskOrigins(w) && Statuses(w.db) && AllFresh(w) && AllAccounted(w)
           && Settles(w, v, t);
    hide Inv, Core, ChainOk, TaskOrigins, Statuses, Fresh, LeafAt, ChainLeaf, LeafOfCommit, WriteBack, Touches,
      SyncedRows, LeafEndsBlock;
    if ConfirmSkips(w, answered) {
      forall a ensures Accounted(v, a) {
        assert LeafAt(w.tree, a) == ChainLeaf(w.commits, a);
      }
    } else {
      forall a | a in values
        ensures values[a] < |w.commits|
        ensures Accounted(v, a) <==> LeafEndsBlock(w.commits, values[a], a) || Unparsed(w, a) || CoveredByOther(w, t, a)
      {
        ConfirmedAccountIff(w, v, answered, a);
      }
      forall a | a !in values ensures Accounted(v, a) {
        WriteBackAt(w.tree, w.commits, values.Keys, values, a);
        OthersAccounted(w, v, t, a);
      }
      hide Accounted, ConfirmSkips, Unparsed, CoveredByOther, ConfirmOk, ApplyConfirmWrite, Settles;
    }
  }

  lemma ConfirmedAccountIff(w: World, v: World, answered: bool, a: string)
    requires Inv(w) && w.confirm.ConfirmChecked? && a in w.confirm.values && v == ApplyConfirmWrite(w, answered)
             && !ConfirmSkips(w, answered)
    ensures w.confirm.values[a] < |w.commits|
    ensures Accounted(v, a) <==>
            LeafEndsBlock(w.commits, w.confirm.values[a], a) || Unparsed(w, a) || CoveredByOther(w, w.confirm.task, a)
  {
    var t, k := w.confirm.task, w.confirm.values[a];
    RowRead(w, a);
    ConfirmWrites(w, v, answered, a);
    OtherCovers(w, v, t, a);
    hide Inv, ApplyConfirmWrite, Settles, Wrote, ConfirmSkips;
    ConfirmedLeafIff(w, v, t, a, k);
  }

  lemma RowRead(w: World, a: string)
    requires Inv(w) && w.confirm.ConfirmChecked? && a in w.confirm.values
    ensures ChainOk(w) && TaskOrigins(w) && Statuses(w.db) && TaskAt(w.db, w.confirm.task, NeedToWrite, Committed)
    ensures SyncedRow(w, w.confirm.task, a, w.confirm.values[a]) && Fresh(w, a, Some(w.confirm.values[a]))
  {
    assert ConfirmOk(w) && AllFresh(w);
    hide Fresh, ChainOk, TaskOrigins, Statuses;
  }

  lemma ConfirmWrites(w: World, v: World, answered: bool, a: string)
    requires w.confirm.ConfirmChecked? && a in w.confirm.values && v == ApplyConfirmWrite(w, answered)
             && !ConfirmSkips(w, answered)
    requires w.confirm.values[a] < |w.commits|
    ensures LeafAt(v.tree, a) == LeafOfCommit(w.commits[w.confirm.values[a]], a)
    ensures Settles(w, v, w.confirm.task) && Wrote(v, w.confirm.task) && forall u | Wrote(w, u) :: Wrote(v, u)
  {
    hide WriteBack, LeafOfCommit, LeafAt;
    WriteBackAt(w.tree, w.commits, w.confirm.values.Keys, w.confirm.values, a);
  }

  lemma ConfirmSettles(w: World, v: World, answered: bool)
    requires Inv(w) && w.confirm.ConfirmChecked? && v == ApplyConfirmWrite(w, answered)
    ensures ChainOk(w) && TaskOrigins(w) && Statuses(w.db) && SyncedRows(w, w.confirm.task) && AllFresh(w)
    ensures Settles(w, v, w.confirm.task) && Wrote(v, w.confirm.task) && forall u | Wrote(w, u) :: Wrote(v, u)
    ensures v.confirm == ConfirmWrote(w.confirm.task)
  {
    assert ConfirmOk(w);
    hide ChainOk, TaskOrigins, Statuses, AllFresh, SyncedRows, WriteBack, SameRoot, LiveCellToConfirm;
  }

  /** It leaves nothing half known exactly when t_smt_info is at the end of the blocks it gives, or more is to come. */
  lemma ConfirmWriteFreshIff(w: World, answered: bool)
    requires Inv(w) && w.confirm.ConfirmChecked?
    ensures AllFresh(ApplyConfirmWrite(w, answered)) <==> InfoEndsBlocks(w)
  {
    var t, v := w.confirm.task, ApplyConfirmWrite(w, answered);
    ConfirmSettles(w, v, answered);
    assert v.info == w.info && forall a :: Fresh(w, a, InfoOf(w.info, a));
    hide Inv, ApplyConfirmWrite, Settles, Wrote, Fresh, AccountsOf, ConfirmedByOther, EndsBlock, Unparsed, Touches;
    hide ChainOk, TaskOrigins, Statuses, SyncedRows;
    forall a
      ensures a !in AccountsOf(w.db, t) ==> Fresh(v, a, InfoOf(w.info, a))
      ensures a in AccountsOf(w.db, t) ==>
                (Fresh(v, a, InfoOf(w.info, a)) <==>
                   a in w.info && w.info[a] < |w.commits|
                   && (EndsBlock(w.commits, w.info[a], a) || Unparsed(w, a) || ConfirmedByOther(w, t, a)))
    {
      if a in AccountsOf(w.db, t) {
        ConfirmedRowIff(w, v, t, a);
      } else {
        ElsewhereStaysFresh(w, v, t, a, InfoOf(w.info, a));
      }
    }
  }

  // ---------- every run ----------

  /**
    Where a step can lose a leaf: the writes of the rollback and confirm loops, and the first parse of somebody else's
    commit.
   */
  ghost predicate Safe(w: World, e: Event)
    requires Enabled(w, e)
  {
    match e
    case RollbackWriteEvent => ReadIsCurrent(w)
    case ConfirmWriteEvent(answered) => InfoEndsBlocks(w) && (ConfirmSkips(w, answered) || RowsEndBlocks(w))
    case ParseEvent(k, self) => k == w.parsed && self.None? ==> RowsNotMissed(w)
    case _ => true
  }

  lemma StaysAccountedIff(w: World, e: Event, maxRetry: nat)
    requires Inv(w) && Enabled(w, e)
    ensures AllAccounted(Apply(w, e, maxRetry)) && AllFresh(Apply(w, e, maxRetry)) <==> Safe(w, e)
  {
    if OnTables(e) {
      TablesStayAccounted(w, e, maxRetry);
    } else {
      hide AllAccounted, AllFresh, CommitAllowed, SelfTask, ApplyParse, ApplyConfirmWrite, UpdateLeaves, WriteBack,
        InfoLeaf;
      hide ReadIsCurrent, InfoEndsBlocks, RowsEndBlocks, ConfirmSkips, RowsNotMissed;
      match e
      case CommitEvent(c) => CommitStaysAccounted(w, c);
      case SyncEvent(a, k) => SyncStaysAccounted(w, a, k);
      case ParseEvent(k, self) =>
        if k == w.parsed && self.None? {
          ParseAccountedIff(w);
        } else {
          ParseStaysAccounted(w, k, self);
        }
      case WriteTreeEvent(subAccounts) => TreeWriteStaysAccounted(w, subAccounts);
      case RollbackWriteEvent => RollbackWriteSettles(w); RollbackWriteAccountedIff(w);
      case ConfirmWriteEvent(answered) => ConfirmWriteAccountedIff(w, answered); ConfirmWriteFreshIff(w, answered);
    }
  }

  /** A step keeps the invariant exactly when it is safe. */
  lemma StepKeepsInvIff(w: World, e: Event, maxRetry: nat)
    requires Inv(w) && Enabled(w, e)
    ensures Inv(Apply(w, e, maxRetry)) <==> Safe(w, e)
  {
    StepKeepsCore(w, e, maxRetry);
    StaysAccountedIff(w, e, maxRetry);
    hide Apply, Enabled, Core, AllFresh, AllAccounted, Safe;
  }

  /** Every step of the run is safe. */
  ghost predicate SafeRun(w: World, events: seq<Event>, maxRetry: nat)
    requires ValidRun(w, events, maxRetry)
    decreases |events|
  {
    events == [] || (Safe(w, events[0]) && SafeRun(Apply(w, events[0], maxRetry), events[1..], maxRetry))
  }

  /** The invariant holds in every state of the run. */
  ghost predicate InvThroughout(w: World, events: seq<Event>, maxRetry: nat)
    requires ValidRun(w, events, maxRetry)
    decreases |events|
  {
    Inv(w) && (events == [] || InvThroughout(Apply(w, events[0], maxRetry), events[1..], maxRetry))
  }

  /** A run keeps the invariant throughout exactly when each of its steps is safe. */
  lemma {:induction false} RunKeepsInvIff(w: World, events: seq<Event>, maxRetry: nat)
    requires Inv(w) && ValidRun(w, events, maxRetry)
    ensures InvThroughout(w, events, maxRetry) <==> SafeRun(w, events, maxRetry)
    ensures SafeRun(w, events, maxRetry) ==> Inv(Run(w, events, maxRetry))
    decreases |events|
  {
    if events != [] {
      hide Inv, Enabled, Apply, Safe;
      var v := Apply(w, events[0], maxRetry);
      StepKeepsInvIff(w, events[0], maxRetry);
      if Inv(v) {
        RunKeepsInvIff(v, events[1..], maxRetry);
      }
    }
  }

  /**
    In every state reached by safe steps, an account whose leaf differs from the chain's is in an unparsed commit, or
    has an open record in a task in progress that no loop has just settled.
   */
  lemma TreeIsAccounted(events: seq<Event>, maxRetry: nat)
    requires ValidRun(START, events, maxRetry) && SafeRun(START, events, maxRetry)
    ensures AllAccounted(Run(START, events, maxRetry))
  {
    assert Inv(START);
    RunKeepsInvIff(START, events, maxRetry);
  }

  lemma KnownIsParsed(w: World)
    requires ChainOk(w) && TaskOrigins(w) && LiveCellKnown(w)
    ensures w.parsed == |w.commits|
  {
  }

  /** So when nothing is in progress and the cell on the chain is known, the update loop finds equal roots. */
  lemma RootsAgree(w: World)
    requires Inv(w) && NothingInProgress(w.db) && LiveCellKnown(w)
    ensures SameRoot(w.tree, w.commits)
  {
    KnownIsParsed(w);
    assert AllAccounted(w);
    hide Inv, LiveCellKnown, LeafAt, ChainLeaf, Touches;
    forall a ensures LeafAt(w.tree, a) == ChainLeaf(w.commits, a) {
      assert Accounted(w, a);
      assert !Covered(w, a);
    }
  }

  /** And a task it has checked is then started. */
  lemma CheckedTaskStarts(w: World, t: TaskId, maxRetry: nat)
    requires Inv(w) && Enabled(w, WriteCheckEvent(t))
    ensures var v := Apply(w, WriteCheckEvent(t), maxRetry);
            Enabled(v, WriteStartEvent) && Apply(v, WriteStartEvent, maxRetry).write == WriteStarted(t)
            && Apply(v, WriteStartEvent, maxRetry).db.tasks[t].At(Writing, UnSend)
  {
    RootsAgree(w);
    assert w.commits[..|w.commits|] == w.commits;
    hide Inv, SameRoot;
  }

  lemma WriteNothingBack(tree: Leaves, commits: seq<Commit>)
    ensures WriteBack(tree, commits, {}, map[]) == tree
  {
  }

  lemma RecordlessRead(w: World, t: TaskId, maxRetry: nat)
    requires w.confirm.NoConfirm? && TaskAt(w.db, t, NeedToWrite, Committed) && AccountsOf(w.db, t) == {}
    ensures Enabled(w, ConfirmReadEvent(t))
    ensures Apply(w, ConfirmReadEvent(t), maxRetry) == w.(confirm := ConfirmChecked(t, map[]))
  {
    forall i | i in w.db.records ensures !Of(w.db.records[i], t) {
      var a := w.db.records[i].accountId;
      assert a !in AccountsOf(w.db, t);
    }
    assert Restrict(w.info, {}) == map[];
  }

  /** A chain task without records passes the sync check, leaves the tree alone, and is confirmed. */
  lemma RecordlessTaskDrains(w: World, t: TaskId, answered: bool, maxRetry: nat) returns (v: World, u: World)
    requires w.confirm.NoConfirm? && TaskAt(w.db, t, NeedToWrite, Committed) && AccountsOf(w.db, t) == {}
    ensures Enabled(w, ConfirmReadEvent(t)) && v == Apply(w, ConfirmReadEvent(t), maxRetry)
    ensures Enabled(v, ConfirmWriteEvent(answered)) && u == Apply(v, ConfirmWriteEvent(answered), maxRetry)
            && u.tree == w.tree
    ensures Enabled(u, ConfirmFinishEvent)
            && TaskAt(Apply(u, ConfirmFinishEvent, maxRetry).db, t, WriteComplete, Committed)
  {
    hide WriteBack, SameRoot, LiveCellToConfirm, AccountsOf, SyncCheck, Restrict;
    RecordlessRead(w, t, maxRetry);
    v := w.(confirm := ConfirmChecked(t, map[]));
    WriteNothingBack(v.tree, v.commits);
    assert v.confirm.values.Keys == {};
    u := ApplyConfirmWrite(v, answered);
  }

  /** The tasks that parsing a block again brought, and one parse would not have, are confirmed and change no leaf. */
  lemma ReparsedTasksDrain(db: Db, block: seq<Commit>, k: nat, w: World, t: TaskId, answered: bool, maxRetry: nat)
      returns (v: World, u: World)
    requires k <= |block| && Distinct(block) && Orderly(db) && forall c | c in block :: Expected(db, c)
    requires ParseBlock(db, block[..k]).Some? && ParseBlock(ParseBlock(db, block[..k]).value, block).Some?
    requires w.confirm.NoConfirm? && w.db == ParseBlock(ParseBlock(db, block[..k]).value, block).value
    requires t in w.db.tasks && (ParseBlock(db, block).Some? ==> t !in ParseBlock(db, block).value.tasks)
    ensures Enabled(w, ConfirmReadEvent(t)) && v == Apply(w, ConfirmReadEvent(t), maxRetry)
    ensures Enabled(v, ConfirmWriteEvent(answered)) && u == Apply(v, ConfirmWriteEvent(answered), maxRetry)
            && u.tree == w.tree
    ensures Enabled(u, ConfirmFinishEvent)
            && TaskAt(Apply(u, ConfirmFinishEvent, maxRetry).db, t, WriteComplete, Committed)
  {
    ReparseBlock(db, block, k);
    hide ParseBlock, Orderly, Expected, Distinct;
    v, u := RecordlessTaskDrains(w, t, answered, maxRetry);
  }
}
