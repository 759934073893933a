/** Parsing a block again, after a failure in its middle or a step back to it. */
module Reparse {
  import opened Tables
  import opened TaskStore
  import opened Wrappers

  /** Every row the commit would bring is there. */
  ghost predicate Present(records: map<nat, Record>, c: Commit) {
    forall s | s in c.subAccounts :: KeyUsed(records, ChainKey(c, s))
  }

  ghost predicate FreshIds(db: Db) {
    forall i | i in db.records :: i < db.nextId
  }

  lemma UsedStays(records: map<nat, Record>, id: nat, r: Record, key: RecordKey)
    requires id !in records
    ensures KeyUsed(records[id := r], key) <==> KeyUsed(records, key) || r.Key() == key
  {
    if KeyUsed(records, key) {
      var i :| i in records && records[i].Key() == key;
      assert records[id := r][i].Key() == key;
    }
    if r.Key() == key {
      assert records[id := r][id].Key() == key;
    }
  }

  ghost predicate Brings(c: Commit, n: nat, key: RecordKey)
    requires n <= |c.subAccounts|
  {
    exists k :: 0 <= k < n && ChainKey(c, c.subAccounts[k]) == key
  }

  lemma {:induction false} InsertKeepsIds(db: Db, c: Commit, n: nat)
    requires FreshIds(db) && n <= |c.subAccounts|
    ensures FreshIds(InsertIgnore(db, c, n)) && InsertIgnore(db, c, n).tasks == db.tasks
  {
    if n > 0 {
      InsertKeepsIds(db, c, n - 1);
    }
  }

  lemma {:induction false} InsertUses(db: Db, c: Commit, n: nat, key: RecordKey)
    requires FreshIds(db) && n <= |c.subAccounts|
    ensures KeyUsed(InsertIgnore(db, c, n).records, key) <==> KeyUsed(db.records, key) || Brings(c, n, key)
  {
    if n > 0 {
      InsertUses(db, c, n - 1, key);
      InsertKeepsIds(db, c, n - 1);
      var before, r := InsertIgnore(db, c, n - 1), ChainRecord(c, c.subAccounts[n - 1]);
      assert Brings(c, n, key) <==> Brings(c, n - 1, key) || r.Key() == key;
      hide KeyUsed, Brings;
      if !KeyUsed(before.records, r.Key()) {
        UsedStays(before.records, before.nextId, r, key);
      }
    }
  }

  lemma InsertBrings(db: Db, c: Commit)
    requires FreshIds(db)
    ensures FreshIds(CreateChainTask(db, c)) && Present(CreateChainTask(db, c).records, c)
    ensures CreateChainTask(db, c).tasks == if ChainTaskId(c) in db.tasks then db.tasks
            else db.tasks[ChainTaskId(c) := ChainTask(c)]
  {
    var n := |c.subAccounts|;
    InsertKeepsIds(db, c, n);
    forall s | s in c.subAccounts ensures KeyUsed(CreateChainTask(db, c).records, ChainKey(c, s)) {
      InsertUses(db, c, n, ChainKey(c, s));
    }
  }

  lemma {:induction false} InsertNothing(db: Db, c: Commit, n: nat)
    requires n <= |c.subAccounts| && forall k | 0 <= k < n :: KeyUsed(db.records, ChainKey(c, c.subAccounts[k]))
    ensures InsertIgnore(db, c, n) == db
  {
    if n > 0 {
      InsertNothing(db, c, n - 1);
      assert ChainRecord(c, c.subAccounts[n - 1]).Key() == ChainKey(c, c.subAccounts[n - 1]);
    }
  }

  /** A parse that finds no task waiting for the commit leaves the records alone exactly when they are all there. */
  lemma ReparseKeepsRecordsIff(db: Db, c: Commit)
    requires FreshIds(db)
    ensures CreateChainTask(db, c).records == db.records <==> Present(db.records, c)
    ensures Present(CreateChainTask(db, c).records, c)
    ensures Present(db.records, c) ==> CreateChainTask(db, c).nextId == db.nextId
  {
    InsertBrings(db, c);
    if Present(db.records, c) {
      InsertNothing(db, c, |c.subAccounts|);
    }
  }

  /** A third parse finds the digest's task and every record. */
  lemma ThirdParseChangesNothing(db: Db, c: Commit)
    requires FreshIds(db)
    ensures CreateChainTask(CreateChainTask(db, c), c) == CreateChainTask(db, c)
  {
    InsertBrings(db, c);
    InsertNothing(CreateChainTask(db, c), c, |c.subAccounts|);
  }

  /** The task has a record with the nonce each account got on the chain. */
  ghost predicate NoncesMatch(records: map<nat, Record>, t: TaskId, c: Commit) {
    forall s | s in c.subAccounts ::
      exists i ::
             i in records && Of(records[i], t) && records[i].accountId == s.accountId && records[i].nonce == s.nonce
  }

  /**
    After the service's own commit is parsed its rows are all there exactly when its records' nonces are the chain's.
   */
  lemma OwnParsePresentIff(db: Db, c: Commit, t: TaskId)
    requires UpdateToChainTask(db, t, c.blockNumber).Some?
    requires forall s | s in c.subAccounts :: !KeyUsed(db.records, ChainKey(c, s))
    ensures Present(UpdateToChainTask(db, t, c.blockNumber).value.records, c) <==> NoncesMatch(db.records, t, c)
  {
    var after := UpdateToChainTask(db, t, c.blockNumber).value.records;
    forall s | s in c.subAccounts
      ensures KeyUsed(after, ChainKey(c, s)) <==>
              exists i :: i in db.records && Of(db.records[i], t)
                          && db.records[i].accountId == s.accountId && db.records[i].nonce == s.nonce
    {
      if KeyUsed(after, ChainKey(c, s)) {
        var i :| i in after && after[i].Key() == ChainKey(c, s);
        assert KeyUsed(db.records, db.records[i].Key());
      }
      if i :| i in db.records && Of(db.records[i], t)
              && db.records[i].accountId == s.accountId && db.records[i].nonce == s.nonce {
        assert after[i].Key() == ChainKey(c, s);
      }
    }
  }

  // ---------- whole blocks ----------

  /** The query for a waiting task returns one, always the same for the same candidates. */
  ghost function Pick(candidates: set<TaskId>): Option<TaskId> {
    if candidates == {} then None
    else
      var t :| t in candidates; Some(t)
  }

  ghost function Parse(db: Db, c: Commit): Option<Db> {
    ParseAs(db, c, Pick(Awaiting(db.tasks, c)))
  }

  ghost function ParseBlock(db: Db, block: seq<Commit>): Option<Db>
    decreases |block|
  {
    if block == [] then Some(db)
    else
      var next := Parse(db, block[0]);
      if next.None? then None else ParseBlock(next.value, block[1..])
  }

  ghost predicate Distinct(block: seq<Commit>) {
    forall i, j | 0 <= i < j < |block| :: block[i].outpoint != block[j].outpoint
  }

  /** Nothing awaits the commit any more, and its records are there. */
  ghost predicate Ingested(db: Db, c: Commit) {
    Awaiting(db.tasks, c) == {} && Present(db.records, c)
  }

  /**
    Both have the same records; the second has more chain tasks, all of them digests of the given commits, without
    records and still to be confirmed.
   */
  ghost predicate OnlyMoreTasks(a: Db, b: Db, extra: seq<Commit>) {
    && a.records == b.records && a.nextId == b.nextId
    && (forall t | t in a.tasks :: t in b.tasks && b.tasks[t] == a.tasks[t])
    && (forall t | t in b.tasks && t !in a.tasks ::
       b.tasks[t].taskType == TaskChain && b.tasks[t].At(NeedToWrite, Committed))
    && (forall t | t in b.tasks && t !in a.tasks :: exists c :: c in extra && t == ChainTaskId(c))
    && (forall t, i | t in b.tasks && t !in a.tasks && i in b.records :: !Of(b.records[i], t))
  }

  lemma ReparseIngested(a: Db, b: Db, c: Commit, extra: seq<Commit>)
    requires RowsMatchTasks(b) && OnlyMoreTasks(a, b, extra) && Ingested(b, c) && c in extra
    ensures Parse(b, c).Some? && OnlyMoreTasks(a, Parse(b, c).value, extra)
    ensures RowsMatchTasks(Parse(b, c).value)
    ensures Awaiting(Parse(b, c).value.tasks, c) == {}
    ensures forall d :: Awaiting(b.tasks, d) == {} ==> Awaiting(Parse(b, c).value.tasks, d) == {}
  {
    ReparseKeepsRecordsIff(b, c);
    InsertBrings(b, c);
    InsertNothing(b, c, |c.subAccounts|);
    assert ChainTask(c).At(NeedToWrite, Committed);
    forall i | i in b.records
      ensures RowMatches(Parse(b, c).value.tasks, b.records[i])
              && (ChainTaskId(c) !in b.tasks ==> !Of(b.records[i], ChainTaskId(c)))
    {
      assert RowMatches(b.tasks, b.records[i]);
    }
  }

  lemma {:induction false} ReparsePrefix(a: Db, b: Db, prefix: seq<Commit>, extra: seq<Commit>)
    requires RowsMatchTasks(b) && OnlyMoreTasks(a, b, extra)
    requires forall c | c in prefix :: Ingested(b, c) && c in extra
    ensures ParseBlock(b, prefix).Some? && OnlyMoreTasks(a, ParseBlock(b, prefix).value, extra)
    decreases |prefix|
  {
    if prefix != [] {
      ReparseIngested(a, b, prefix[0], extra);
      forall c | c in prefix[1..] ensures Ingested(Parse(b, prefix[0]).value, c) && c in extra {
        assert Ingested(b, c);
      }
      ReparsePrefix(a, Parse(b, prefix[0]).value, prefix[1..], extra);
    }
  }

  lemma {:induction false} ParseBlockSplit(db: Db, block: seq<Commit>, k: nat)
    requires k <= |block| && ParseBlock(db, block[..k]).Some?
    ensures ParseBlock(db, block) == ParseBlock(ParseBlock(db, block[..k]).value, block[k..])
    decreases k
  {
    if k == 0 {
      assert block[0..] == block;
    } else {
      assert block[..k][0] == block[0] && block[..k][1..] == block[1..][..k - 1] && block[1..][k - 1..] == block[k..];
      ParseBlockSplit(Parse(db, block[0]).value, block[1..], k - 1);
    }
  }

  lemma SameCandidates(a: Db, b: Db, c: Commit, extra: seq<Commit>)
    requires OnlyMoreTasks(a, b, extra)
    ensures Awaiting(a.tasks, c) == Awaiting(b.tasks, c)
  {
  }

  lemma {:induction false} SameInserts(a: Db, b: Db, c: Commit, n: nat)
    requires n <= |c.subAccounts| && a.records == b.records && a.nextId == b.nextId
    ensures InsertIgnore(a, c, n).records == InsertIgnore(b, c, n).records
    ensures InsertIgnore(a, c, n).nextId == InsertIgnore(b, c, n).nextId
    ensures InsertIgnore(a, c, n).tasks == a.tasks && InsertIgnore(b, c, n).tasks == b.tasks
  {
    if n > 0 {
      SameInserts(a, b, c, n - 1);
    }
  }

  lemma {:induction false} InsertsForDigest(db: Db, c: Commit, n: nat)
    requires n <= |c.subAccounts|
    ensures var after := InsertIgnore(db, c, n);
            forall i | i in after.records ::
                   (i in db.records && after.records[i] == db.records[i]) || Of(after.records[i], ChainTaskId(c))
  {
    if n > 0 {
      InsertsForDigest(db, c, n - 1);
    }
  }

  lemma PickIsCandidate(candidates: set<TaskId>, tasks: map<TaskId, Task>, c: Commit)
    requires candidates == Awaiting(tasks, c)
    ensures Pick(candidates).Some? ==> Pick(candidates).value in tasks
  {
  }

  lemma MoreTasksStay(a: Db, b: Db, p: Db, q: Db, digest: TaskId, task: Task, extra: seq<Commit>)
    requires OnlyMoreTasks(a, b, extra) && p.records == q.records && p.nextId == q.nextId
    requires p.tasks == (if digest in a.tasks then a.tasks else a.tasks[digest := task])
    requires q.tasks == (if digest in b.tasks then b.tasks else b.tasks[digest := task])
    requires forall d | d in extra :: ChainTaskId(d) != digest
    requires forall i | i in q.records :: (i in b.records && q.records[i] == b.records[i]) || Of(q.records[i], digest)
    ensures OnlyMoreTasks(p, q, extra)
  {
  }

  lemma ForeignAlike(a: Db, b: Db, c: Commit, extra: seq<Commit>)
    requires OnlyMoreTasks(a, b, extra) && forall d | d in extra :: d.outpoint != c.outpoint
    ensures OnlyMoreTasks(CreateChainTask(a, c), CreateChainTask(b, c), extra)
  {
    assert a.records == b.records && a.nextId == b.nextId;
    hide OnlyMoreTasks;
    SameInserts(a, b, c, |c.subAccounts|);
    InsertsForDigest(b, c, |c.subAccounts|);
    hide InsertIgnore;
    MoreTasksStay(a, b, CreateChainTask(a, c), CreateChainTask(b, c), ChainTaskId(c), ChainTask(c), extra);
  }

  lemma OwnAlike(a: Db, b: Db, t: TaskId, c: Commit, extra: seq<Commit>)
    requires OnlyMoreTasks(a, b, extra) && t in a.tasks
    ensures UpdateToChainTask(a, t, c.blockNumber).Some? <==> UpdateToChainTask(b, t, c.blockNumber).Some?
    ensures UpdateToChainTask(a, t, c.blockNumber).Some? ==>
              OnlyMoreTasks(UpdateToChainTask(a, t, c.blockNumber).value, UpdateToChainTask(b, t, c.blockNumber).value,
                extra)
  {
    hide UniqueKeys;
  }

  lemma ParseAlike(a: Db, b: Db, c: Commit, extra: seq<Commit>)
    requires OnlyMoreTasks(a, b, extra) && forall d | d in extra :: d.outpoint != c.outpoint
    ensures Parse(a, c).Some? <==> Parse(b, c).Some?
    ensures Parse(a, c).Some? ==> OnlyMoreTasks(Parse(a, c).value, Parse(b, c).value, extra)
  {
    SameCandidates(a, b, c, extra);
    PickIsCandidate(Awaiting(a.tasks, c), a.tasks, c);
    hide OnlyMoreTasks, CreateChainTask, UpdateToChainTask, Awaiting, Pick;
    if Pick(Awaiting(a.tasks, c)).Some? {
      OwnAlike(a, b, Pick(Awaiting(a.tasks, c)).value, c, extra);
    } else {
      ForeignAlike(a, b, c, extra);
    }
  }

  lemma {:induction false} ParseRestAlike(a: Db, b: Db, rest: seq<Commit>, extra: seq<Commit>)
    requires OnlyMoreTasks(a, b, extra) && forall d, c | d in extra && c in rest :: d.outpoint != c.outpoint
    ensures ParseBlock(a, rest).Some? <==> ParseBlock(b, rest).Some?
    ensures ParseBlock(a, rest).Some? ==> OnlyMoreTasks(ParseBlock(a, rest).value, ParseBlock(b, rest).value, extra)
    decreases |rest|
  {
    if rest != [] {
      ParseAlike(a, b, rest[0], extra);
      if Parse(a, rest[0]).Some? {
        ParseRestAlike(Parse(a, rest[0]).value, Parse(b, rest[0]).value, rest[1..], extra);
      }
    }
  }

  /**
    With its first k commits ingested, a block is parsed again from its start: the records end as if the parse had
    just gone on, and the only difference is at most one chain task for each commit parsed twice.
   */
  lemma ReparseIngestedBlock(mid: Db, block: seq<Commit>, k: nat)
    requires k <= |block| && Distinct(block) && RowsMatchTasks(mid)
    requires forall i | 0 <= i < k :: Ingested(mid, block[i])
    ensures ParseBlock(mid, block).Some? <==> ParseBlock(mid, block[k..]).Some?
    ensures ParseBlock(mid, block).Some? ==>
              OnlyMoreTasks(ParseBlock(mid, block[k..]).value, ParseBlock(mid, block).value, block[..k])
  {
    ReparsePrefix(mid, mid, block[..k], block[..k]);
    ParseBlockSplit(mid, block, k);
    ParseRestAlike(mid, ParseBlock(mid, block[..k]).value, block[k..], block[..k]);
  }

  /** A successful parse ingests: of a foreign commit always, of the service's own if its nonces are the chain's. */
  lemma ParseIngests(db: Db, c: Commit)
    requires FreshIds(db) && Parse(db, c).Some?
    requires forall t, u | t in Awaiting(db.tasks, c) && u in Awaiting(db.tasks, c) :: t == u
    requires forall t | t in Awaiting(db.tasks, c) :: NoncesMatch(db.records, t, c)
    ensures Ingested(Parse(db, c).value, c)
  {
    var self, after := Pick(Awaiting(db.tasks, c)), Parse(db, c).value;
    if self.Some? {
      assert self.value in Awaiting(db.tasks, c);
      forall t | t in after.tasks ensures !Awaits(after.tasks[t], c) {
        assert t in Awaiting(db.tasks, c) ==> t == self.value;
      }
      forall s | s in c.subAccounts ensures KeyUsed(after.records, ChainKey(c, s)) {
        var i :| i in db.records && Of(db.records[i], self.value)
                 && db.records[i].accountId == s.accountId && db.records[i].nonce == s.nonce;
        assert after.records[i].Key() == ChainKey(c, s);
      }
    } else {
      InsertBrings(db, c);
    }
  }

  // ---------- what was ingested stays so ----------

  /** A task waiting for its transaction is one of the service. */
  ghost predicate PendingAreOwn(db: Db) {
    forall t | t in db.tasks && db.tasks[t].At(WriteComplete, TxPending) :: db.tasks[t].taskType == TaskDelegate
  }

  /** At most one task waits for the commit, with the nonces of the chain, and its digest's task is of its block. */
  ghost predicate Expected(db: Db, c: Commit) {
    && (forall t, u | t in Awaiting(db.tasks, c) && u in Awaiting(db.tasks, c) :: t == u)
    && (forall t | t in Awaiting(db.tasks, c) :: NoncesMatch(db.records, t, c))
    && (ChainTaskId(c) in db.tasks ==>
          db.tasks[ChainTaskId(c)].taskType == TaskChain && db.tasks[ChainTaskId(c)].blockNumber == c.blockNumber)
  }

  ghost predicate Orderly(db: Db) {
    TablesInv(db) && PendingAreOwn(db)
  }

  lemma ParseKeepsOrderly(db: Db, c: Commit)
    requires Orderly(db) && Expected(db, c) && Parse(db, c).Some?
    ensures Orderly(Parse(db, c).value)
  {
    var self := Pick(Awaiting(db.tasks, c));
    if self.Some? {
      ToChainKeepsTables(db, self.value, c.blockNumber);
    } else {
      CreateChainKeepsTables(db, c);
      assert FreshIds(db);
      InsertBrings(db, c);
    }
    hide TablesInv;
  }

  /** The rows of a parse: those of a task that waited become chain rows, some may be new, the others stay. */
  ghost predicate RowsKept(db: Db, after: Db, self: Option<TaskId>) {
    forall i | i in db.records ::
      && i in after.records
      && after.records[i].accountId == db.records[i].accountId && after.records[i].nonce == db.records[i].nonce
      && after.records[i].taskId == db.records[i].taskId
      && (self.None? || !Of(db.records[i], self.value) ==> after.records[i] == db.records[i])
  }

  lemma ParseKeepsRows(db: Db, c: Commit)
    requires Orderly(db) && Expected(db, c) && Parse(db, c).Some?
    ensures RowsKept(db, Parse(db, c).value, Pick(Awaiting(db.tasks, c)))
  {
    if Pick(Awaiting(db.tasks, c)).None? {
      forall i | i in db.records ensures RowMatches(db.tasks, db.records[i]) {}
      InsertKeepsRows(db, c, |c.subAccounts|);
    }
  }

  /** Tasks waiting for another commit wait on, and no more wait for any. */
  lemma ParseKeepsWaiting(db: Db, c: Commit, d: Commit)
    requires Orderly(db) && Expected(db, c) && Parse(db, c).Some?
    ensures Awaiting(Parse(db, c).value.tasks, d) <= Awaiting(db.tasks, d)
    ensures ChainTaskId(d) in Parse(db, c).value.tasks && c.outpoint != d.outpoint ==> ChainTaskId(d) in db.tasks
    ensures ChainTaskId(d) in db.tasks && Expected(db, d) ==>
              ChainTaskId(d) in Parse(db, c).value.tasks
                && Parse(db, c).value.tasks[ChainTaskId(d)] == db.tasks[ChainTaskId(d)]
  {
    var self := Pick(Awaiting(db.tasks, c));
    if self.None? {
      assert FreshIds(db);
      InsertBrings(db, c);
    } else {
      assert self.value in Awaiting(db.tasks, c);
    }
    hide TablesInv, UniqueKeys, InsertIgnore;
  }

  lemma ParseKeepsExpected(db: Db, c: Commit, d: Commit)
    requires Orderly(db) && Expected(db, c) && Parse(db, c).Some? && Expected(db, d) && c.outpoint != d.outpoint
    ensures Expected(Parse(db, c).value, d)
  {
    var after := Parse(db, c).value;
    ParseKeepsWaiting(db, c, d);
    ParseKeepsRows(db, c);
    forall t | t in Awaiting(after.tasks, d) ensures NoncesMatch(after.records, t, d) {
      assert NoncesMatch(db.records, t, d);
      hide Parse, Orderly;
      forall s | s in d.subAccounts
        ensures exists i ::
                  i in after.records && Of(after.records[i], t)
                  && after.records[i].accountId == s.accountId && after.records[i].nonce == s.nonce
      {
        var i :| i in db.records && Of(db.records[i], t) && db.records[i].accountId == s.accountId
          && db.records[i].nonce == s.nonce;
        assert i in after.records;
      }
    }
    hide Parse, Orderly, RowsKept, NoncesMatch;
  }

  lemma ParseKeepsIngested(db: Db, c: Commit, d: Commit)
    requires Orderly(db) && Expected(db, c) && Parse(db, c).Some? && Ingested(db, d)
    ensures Ingested(Parse(db, c).value, d)
  {
    var self, after := Pick(Awaiting(db.tasks, c)), Parse(db, c).value;
    ParseKeepsRows(db, c);
    assert Awaiting(after.tasks, d) == {} by {
      if self.None? {
        assert FreshIds(db);
        InsertBrings(db, c);
      }
    }
    assert self.Some? ==> self.value in Awaiting(db.tasks, c);
    hide Parse, Pick, UniqueKeys, RowsKept;
    forall s | s in d.subAccounts ensures KeyUsed(after.records, ChainKey(d, s)) {
      var i :| i in db.records && db.records[i].Key() == ChainKey(d, s);
      KeptKey(db, after, self, i);
    }
  }

  lemma KeptKey(db: Db, after: Db, self: Option<TaskId>, i: nat)
    requires TablesInv(db) && RowsKept(db, after, self) && i in db.records && db.records[i].recordType == RecordChain
    requires self.Some? ==> self.value in db.tasks && db.tasks[self.value].taskType == TaskDelegate
    ensures i in after.records && after.records[i] == db.records[i]
  {
    assert RowMatches(db.tasks, db.records[i]);
  }

  /** After the first k commits of a block, all of them are ingested, and the others still expected. */
  lemma {:induction false} AllIngested(db: Db, block: seq<Commit>, k: nat)
    requires k <= |block| && Distinct(block) && Orderly(db) && forall c | c in block :: Expected(db, c)
    requires ParseBlock(db, block[..k]).Some?
    ensures var mid := ParseBlock(db, block[..k]).value;
            Orderly(mid) && forall i | 0 <= i < k :: Ingested(mid, block[i])
    decreases k
  {
    if k > 0 {
      var next, rest := Parse(db, block[0]).value, block[1..];
      assert block[..k][0] == block[0] && block[..k][1..] == rest[..k - 1];
      assert block[0] in block;
      ParseKeepsOrderly(db, block[0]);
      forall c | c in rest ensures Expected(next, c) {
        assert c in block;
        ParseKeepsExpected(db, block[0], c);
      }
      assert FreshIds(db);
      ParseIngests(db, block[0]);
      hide Orderly, Expected, Parse, Ingested;
      AllIngested(next, rest, k - 1);
      StaysIngested(next, rest, k - 1, block[0]);
      forall i | 0 <= i < k ensures Ingested(ParseBlock(db, block[..k]).value, block[i]) {
        if i > 0 {
          assert block[i] == rest[i - 1];
        }
      }
    }
  }

  lemma {:induction false} StaysIngested(db: Db, block: seq<Commit>, k: nat, d: Commit)
    requires k <= |block| && Distinct(block) && Orderly(db) && (forall c | c in block :: Expected(db, c))
             && Ingested(db, d)
    requires ParseBlock(db, block[..k]).Some?
    ensures Ingested(ParseBlock(db, block[..k]).value, d)
    decreases k
  {
    if k > 0 {
      var next, rest := Parse(db, block[0]).value, block[1..];
      assert block[..k][0] == block[0] && block[..k][1..] == rest[..k - 1];
      assert block[0] in block;
      ParseKeepsOrderly(db, block[0]);
      forall c | c in rest ensures Expected(next, c) {
        assert c in block;
        ParseKeepsExpected(db, block[0], c);
      }
      ParseKeepsIngested(db, block[0], d);
      hide Orderly, Expected, Parse, Ingested;
      StaysIngested(next, rest, k - 1, d);
    }
  }

  /**
    A block whose parse stopped after k commits, or was stepped back over, is parsed again from its start. The records
    end as one parse leaves them, and the only difference is at most one chain task for each commit parsed twice,
    without records and still to be confirmed.
   */
  lemma ReparseBlock(db: Db, block: seq<Commit>, k: nat)
    requires k <= |block| && Distinct(block) && Orderly(db) && forall c | c in block :: Expected(db, c)
    requires ParseBlock(db, block[..k]).Some?
    ensures var mid := ParseBlock(db, block[..k]).value;
            && (ParseBlock(mid, block).Some? <==> ParseBlock(db, block).Some?)
            && (ParseBlock(mid, block).Some? ==>
               OnlyMoreTasks(ParseBlock(db, block).value, ParseBlock(mid, block).value, block[..k]))
  {
    AllIngested(db, block, k);
    ReparseIngestedBlock(ParseBlock(db, block[..k]).value, block, k);
    ParseBlockSplit(db, block, k);
  }
}
