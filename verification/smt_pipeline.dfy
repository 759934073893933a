/**
  One parent account's sparse-Merkle tree, the chain, the tables, and the loops that keep them in step. The tree's
  root is injective, so it is the leaves themselves. The loops are modelled without the Redis lock: what is proved
  of all interleavings holds with it too.
 */
module SmtPipeline {
  import opened Tables
  import opened TaskStore
  import opened Wrappers

  // ---------- leaves ----------

  /** A leaf is a hash; "" is the zero leaf of an absent account. */
  type Leaves = map<string, string>

  function LeafAt(leaves: Leaves, a: string): string {
    if a in leaves then leaves[a] else ""
  }

  function LeafIn(subAccounts: seq<SubAccount>, a: string): Option<string>
    decreases |subAccounts|
  {
    if subAccounts == [] then None
    else
      var last := subAccounts[|subAccounts| - 1];
      if last.accountId == a then Some(last.leaf) else LeafIn(subAccounts[..|subAccounts| - 1], a)
  }

  predicate Touches(c: Commit, a: string) {
    LeafIn(c.subAccounts, a).Some?
  }

  /** The last commit that touches the account. */
  function LastTouch(commits: seq<Commit>, a: string): (j: Option<nat>)
    ensures j.Some? ==> j.value < |commits| && Touches(commits[j.value], a)
    ensures j.Some? ==> forall k | j.value < k < |commits| :: !Touches(commits[k], a)
    ensures j.None? ==> forall k | 0 <= k < |commits| :: !Touches(commits[k], a)
    decreases |commits|
  {
    if commits == [] then None
    else if Touches(commits[|commits| - 1], a) then Some(|commits| - 1)
    else LastTouch(commits[..|commits| - 1], a)
  }

  function LeafOfCommit(c: Commit, a: string): string {
    var leaf := LeafIn(c.subAccounts, a);
    if leaf.Some? then leaf.value else ""
  }

  /** The leaf the chain has committed for the account. */
  function ChainLeaf(commits: seq<Commit>, a: string): string {
    var j := LastTouch(commits, a);
    if j.Some? then LeafOfCommit(commits[j.value], a) else ""
  }

  ghost predicate SameRoot(tree: Leaves, commits: seq<Commit>) {
    forall a :: LeafAt(tree, a) == ChainLeaf(commits, a)
  }

  /** The tree after setting the leaf of every account in the list. */
  function UpdateLeaves(tree: Leaves, subAccounts: seq<SubAccount>): Leaves
    decreases |subAccounts|
  {
    if subAccounts == [] then tree
    else
      var last := subAccounts[|subAccounts| - 1];
      UpdateLeaves(tree, subAccounts[..|subAccounts| - 1])[last.accountId := last.leaf]
  }

  // ---------- the state ----------

  datatype WriteJob =
    | NoWrite
    | WriteChecked(task: TaskId, seen: nat)
    | WriteStarted(task: TaskId)
    | WriteTree(task: TaskId, subAccounts: seq<SubAccount>)
    | WriteBuilt(task: TaskId, outpoint: string)

  datatype RollbackJob =
    | NoRollback
    | RollbackRead(task: TaskId, accounts: set<string>, values: map<string, nat>, list: set<Record>)
    | RollbackWrote(task: TaskId, list: set<Record>)

  datatype ConfirmJob =
    | NoConfirm
    | ConfirmChecked(task: TaskId, values: map<string, nat>)
    | ConfirmWrote(task: TaskId)

  /**
    `parsed`: how many commits the block parser has taken in. `info`: for each account, the commit its row of
    t_smt_info is from. `built`: the accounts of the transactions the service built, by outpoint.
   */
  datatype World = World(tree: Leaves, commits: seq<Commit>, parsed: nat, info: map<string, nat>, db: Db,
                         built: map<string, seq<SubAccount>>, write: WriteJob, rollback: RollbackJob,
                         confirm: ConfirmJob)

  const START := World(map[], [], 0, map[], Db(map[], map[], 0), map[], NoWrite, NoRollback, NoConfirm)

  // ---------- what the loops look at ----------

  /** (1,0) (2,1) (0,2) (3,?) */
  predicate InProgress(task: Task) {
    task.At(Writing, UnSend) || task.At(WriteComplete, TxPending) || task.At(NeedToWrite, Committed)
    || task.smtStatus == NeedToRollback
  }

  ghost predicate NothingInProgress(db: Db) {
    forall t | t in db.tasks :: !InProgress(db.tasks[t])
  }

  /** The sub-account cell on the chain is known: its transaction was confirmed, or the parser is past it. */
  ghost predicate LiveCellKnown(w: World) {
    || w.commits == []
    || w.parsed == |w.commits|
    || exists t :: t in w.db.tasks && w.db.tasks[t].taskType == TaskChain && w.db.tasks[t].smtStatus == WriteComplete
                   && w.db.tasks[t].outpoint == w.commits[|w.commits| - 1].outpoint
  }

  /** For a confirmation: the cell on the chain comes from a transaction that is still to be confirmed. */
  ghost predicate LiveCellToConfirm(db: Db, commits: seq<Commit>) {
    commits != [] &&
    exists t :: t in db.tasks && db.tasks[t].taskType == TaskChain && db.tasks[t].At(NeedToWrite, Committed)
                && db.tasks[t].outpoint == commits[|commits| - 1].outpoint
  }

  predicate HasRow(db: Db, t: TaskId, i: nat) {
    i in db.records && Of(db.records[i], t)
  }

  /** The account has a waiting record in the task. */
  ghost predicate HasDefault(db: Db, t: TaskId, a: string) {
    exists i :: HasRow(db, t, i) && db.records[i].recordType == RecordDefault && db.records[i].accountId == a
  }

  function AccountsOf(db: Db, t: TaskId): set<string> {
    set i | i in db.records && Of(db.records[i], t) :: db.records[i].accountId
  }

  function RowsOf(db: Db, t: TaskId): set<Record> {
    set i | i in db.records && Of(db.records[i], t) :: db.records[i]
  }

  /** t_smt_info has come as far as the task's block for each of its accounts, and counts as many rows as records. */
  ghost predicate SyncCheck(w: World, t: TaskId) {
    && t in w.db.tasks
    && (forall i, j | HasRow(w.db, t, i) && HasRow(w.db, t, j)
       && w.db.records[i].accountId == w.db.records[j].accountId :: i == j)
    && (forall i | HasRow(w.db, t, i) ::
          var a := w.db.records[i].accountId;
          && a in w.info && w.info[a] < |w.commits|
          && w.commits[w.info[a]].blockNumber >= w.db.tasks[t].blockNumber)
  }

  function Restrict(info: map<string, nat>, accounts: set<string>): map<string, nat> {
    map a | a in info && a in accounts :: info[a]
  }

  /** The leaf t_smt_info gives, or the zero leaf if it has no row. */
  function InfoLeaf(commits: seq<Commit>, values: map<string, nat>, a: string): string {
    if a in values && values[a] < |commits| then LeafOfCommit(commits[values[a]], a) else ""
  }

  function WriteBack(tree: Leaves, commits: seq<Commit>, accounts: set<string>, values: map<string, nat>): Leaves {
    map a | a in tree.Keys + accounts :: if a in accounts then InfoLeaf(commits, values, a) else tree[a]
  }

  // ---------- the events ----------

  datatype Event =
    // the chain and the service that fills t_smt_info
    | CommitEvent(c: Commit)
    | SyncEvent(a: string, k: nat)
    // the block parser; self is the task found waiting
    | ParseEvent(k: nat, self: Option<TaskId>)
    // requests and distribution
    | RecordEvent(accountId: string, nonce: nat)
    | DistributeEvent(task: TaskId, ids: set<nat>)
    // the update loop
    | MarkRollbackEvent(marked: set<TaskId>)
    | NonceCloseEvent(task: TaskId, ids: set<nat>, closed: bool)
    | CustomScriptCloseEvent(task: TaskId)
    | WriteCheckEvent(task: TaskId)
    | WriteStartEvent
    | WriteTreeEvent(subAccounts: seq<SubAccount>)
    | WriteBuildEvent(refOutpoint: string, outpoint: string)
    | WritePendingEvent
    | WriteAbort
    // the check of pending transactions
    | RejectEvent(marked: set<TaskId>)
    // the rollback loop
    | RollbackReadEvent(task: TaskId)
    | RollbackWriteEvent
    | RollbackFinishEvent
    | RollbackAbort
    // the confirm loop
    | ConfirmReadEvent(task: TaskId)
    | ConfirmWriteEvent(answered: bool)
    | ConfirmFinishEvent
    | ConfirmAbort

  function Tip(commits: seq<Commit>): string {
    if commits == [] then "" else commits[|commits| - 1].outpoint
  }

  /**
    A commit spends the cell on the chain, in the same block or a later one; what the service built commits as built.
   */
  ghost predicate CommitAllowed(w: World, c: Commit) {
    && c.refOutpoint == Tip(w.commits) && c.outpoint != ""
    && (forall k | 0 <= k < |w.commits| ::
       w.commits[k].outpoint != c.outpoint && w.commits[k].blockNumber <= c.blockNumber)
    && (c.outpoint in w.built ==> c.subAccounts == w.built[c.outpoint])
    && (forall i, j | 0 <= i < j < |c.subAccounts| :: c.subAccounts[i].accountId != c.subAccounts[j].accountId)
  }

  ghost predicate Enabled(w: World, e: Event) {
    match e
    case CommitEvent(c) => CommitAllowed(w, c)
    case SyncEvent(a, k) => k < |w.commits| && Touches(w.commits[k], a) && (a in w.info ==> w.info[a] <= k)
    case ParseEvent(k, self) => k <= w.parsed && k < |w.commits| && SelfTask(w.db, w.commits[k], self)
    case RecordEvent(accountId, nonce) => true
    case DistributeEvent(t, ids) =>
      t.outpoint == "" && t !in w.db.tasks && forall i | i in ids && i in w.db.records :: w.db.records[i].taskId == None
    case MarkRollbackEvent(ids) => w.write.NoWrite?
    case NonceCloseEvent(t, ids, closed) =>
      && w.write.NoWrite? && TaskAt(w.db, t, NeedToWrite, UnSend) && w.db.tasks[t].taskType == TaskDelegate
      && forall i | i in ids :: HasRow(w.db, t, i) && w.db.records[i].recordType == RecordDefault
    case CustomScriptCloseEvent(t) =>
      w.write.NoWrite? && TaskAt(w.db, t, NeedToWrite, UnSend) && w.db.tasks[t].taskType == TaskDelegate
    case WriteCheckEvent(t) =>
      && w.write.NoWrite? && TaskAt(w.db, t, NeedToWrite, UnSend) && w.db.tasks[t].taskType == TaskDelegate
      && NothingInProgress(w.db) && LiveCellKnown(w)
    case WriteStartEvent => w.write.WriteChecked?
    case WriteTreeEvent(subAccounts) =>
      w.write.WriteStarted? && forall s | s in subAccounts :: HasDefault(w.db, w.write.task, s.accountId)
    case WriteBuildEvent(refOutpoint, outpoint) =>
      && w.write.WriteTree? && outpoint != "" && outpoint !in w.built
      && (forall k | 0 <= k < |w.commits| :: w.commits[k].outpoint != outpoint)
    case WritePendingEvent => w.write.WriteBuilt?
    case WriteAbort => true
    case RejectEvent(ids) => true
    case RollbackReadEvent(t) => w.rollback.NoRollback? && t in w.db.tasks && w.db.tasks[t].smtStatus == NeedToRollback
    case RollbackWriteEvent => w.rollback.RollbackRead?
    case RollbackFinishEvent => w.rollback.RollbackWrote?
    case RollbackAbort => true
    case ConfirmReadEvent(t) => w.confirm.NoConfirm? && TaskAt(w.db, t, NeedToWrite, Committed) && SyncCheck(w, t)
    case ConfirmWriteEvent(_) => w.confirm.ConfirmChecked?
    case ConfirmFinishEvent => w.confirm.ConfirmWrote?
    case ConfirmAbort => true
  }

  ghost function OrKeep(r: Option<Db>, db: Db): Db {
    if r.Some? then r.value else db
  }

  ghost function ApplyParse(w: World, k: nat, self: Option<TaskId>): World
    requires k < |w.commits|
  {
    var r := ParseAs(w.db, w.commits[k], self);
    if r.None? then w else w.(db := r.value, parsed := if k + 1 > w.parsed then k + 1 else w.parsed)
  }

  ghost function ApplyWriteStart(w: World): World
    requires w.write.WriteChecked?
  {
    var seen := if w.write.seen <= |w.commits| then w.commits[..w.write.seen] else w.commits;
    if SameRoot(w.tree, seen)
    then w.(db := MarkWriting(w.db, w.write.task), write := WriteStarted(w.write.task))
    else w.(write := NoWrite)
  }

  ghost function FinishRollback(db: Db, t: TaskId, list: set<Record>, maxRetry: nat): Db {
    if t in db.tasks && db.tasks[t].taskType == TaskDelegate && db.tasks[t].retry < maxRetry
    then MarkRetry(db, t, db.tasks[t].retry + 1)
    else OrKeep(CloseTask(db, t, list, NeedToRollback), db)
  }

  ghost function ApplyRollbackFinish(w: World, maxRetry: nat): World
    requires w.rollback.RollbackWrote?
  {
    w.(db := FinishRollback(w.db, w.rollback.task, w.rollback.list, maxRetry), rollback := NoRollback)
  }

  /** Only an answered query for the cell on the chain lets a confirmation compare roots, and leave the tree alone. */
  ghost function ApplyConfirmWrite(w: World, answered: bool): World
    requires w.confirm.ConfirmChecked?
  {
    var skip := answered && LiveCellToConfirm(w.db, w.commits) && SameRoot(w.tree, w.commits);
    w.(tree := if skip then w.tree else WriteBack(w.tree, w.commits, w.confirm.values.Keys, w.confirm.values),
       confirm := ConfirmWrote(w.confirm.task))
  }

  ghost function Apply(w: World, e: Event, maxRetry: nat): World
    requires Enabled(w, e)
  {
    match e
    case CommitEvent(c) => w.(commits := w.commits + [c])
    case SyncEvent(a, k) => w.(info := w.info[a := k])
    case ParseEvent(k, self) => ApplyParse(w, k, self)
    case RecordEvent(accountId, nonce) => w.(db := NewRecord(w.db, accountId, nonce))
    case DistributeEvent(t, ids) => w.(db := Distribute(w.db, t, ids))
    case MarkRollbackEvent(ids) => w.(db := MarkRollback(w.db, ids))
    case NonceCloseEvent(t, ids, closed) => w.(db := OrKeep(CloseRecords(w.db, t, ids, closed), w.db))
    case CustomScriptCloseEvent(t) =>
      w.(db :=
        OrKeep(CloseTask(w.db, t, (set r | r in RowsOf(w.db, t) && r.recordType == RecordDefault), NeedToWrite), w.db))
    case WriteCheckEvent(t) => w.(write := WriteChecked(t, |w.commits|))
    case WriteStartEvent => ApplyWriteStart(w)
    case WriteTreeEvent(subAccounts) =>
      w.(tree := UpdateLeaves(w.tree, subAccounts), write := WriteTree(w.write.task, subAccounts))
    case WriteBuildEvent(refOutpoint, outpoint) =>
      w.(db := SetOutpoint(w.db, w.write.task, refOutpoint, outpoint),
        built := w.built[outpoint := w.write.subAccounts],
         write := WriteBuilt(w.write.task, outpoint))
    case WritePendingEvent => w.(db := MarkPending(w.db, w.write.task), write := NoWrite)
    case WriteAbort => w.(write := NoWrite)
    case RejectEvent(ids) => w.(db := MarkRejected(w.db, ids))
    case RollbackReadEvent(t) =>
      w.(rollback := RollbackRead(t, AccountsOf(w.db, t), Restrict(w.info, AccountsOf(w.db, t)), RowsOf(w.db, t)))
    case RollbackWriteEvent =>
      w.(tree := WriteBack(w.tree, w.commits, w.rollback.accounts, w.rollback.values),
         rollback := RollbackWrote(w.rollback.task, w.rollback.list))
    case RollbackFinishEvent => ApplyRollbackFinish(w, maxRetry)
    case RollbackAbort => w.(rollback := NoRollback)
    case ConfirmReadEvent(t) => w.(confirm := ConfirmChecked(t, Restrict(w.info, AccountsOf(w.db, t))))
    case ConfirmWriteEvent(answered) => ApplyConfirmWrite(w, answered)
    case ConfirmFinishEvent => w.(db := MarkWriteComplete(w.db, w.confirm.task), confirm := NoConfirm)
    case ConfirmAbort => w.(confirm := NoConfirm)
  }

  // ---------- invariants: the tables ----------

  /** The pairs (smt_status, tx_status) a task goes through. */
  predicate StatusOk(task: Task) {
    match task.taskType
    case TaskDelegate =>
      || task.At(NeedToWrite, UnSend) || task.At(Writing, UnSend) || task.At(WriteComplete, TxPending)
      || task.At(NeedToRollback, UnSend) || task.At(NeedToRollback, TxRejected)
      || task.At(RollbackComplete, UnSend) || task.At(RollbackComplete, TxRejected)
    case TaskClosed => task.At(NeedToWrite, UnSend)
    case TaskChain => task.At(NeedToWrite, Committed) || task.At(WriteComplete, Committed)
  }

  ghost predicate Statuses(db: Db) {
    forall t | t in db.tasks :: StatusOk(db.tasks[t])
  }

  // ---------- invariants: the chain ----------

  ghost predicate ChainOk(w: World) {
    && w.parsed <= |w.commits|
    && (forall i, j | 0 <= i < j < |w.commits| ::
          w.commits[i].blockNumber <= w.commits[j].blockNumber && w.commits[i].outpoint != w.commits[j].outpoint)
    && (forall k | 0 <= k < |w.commits| :: w.commits[k].outpoint != "")
    && (forall k | 0 <= k < |w.commits| && w.commits[k].outpoint in w.built ::
       w.commits[k].subAccounts == w.built[w.commits[k].outpoint])
    && (forall a | a in w.info :: w.info[a] < |w.commits| && Touches(w.commits[w.info[a]], a))
  }

  ghost predicate TaskOfCommit(w: World, t: TaskId, k: nat) {
    && k < w.parsed && k < |w.commits| && t in w.db.tasks
    && w.db.tasks[t].outpoint == w.commits[k].outpoint && w.db.tasks[t].blockNumber == w.commits[k].blockNumber
    && (t.outpoint != "" ==> t == ChainTaskId(w.commits[k]))
  }

  /** Chain tasks come from parsed commits; the others are the service's own, without an outpoint in their id. */
  ghost predicate OriginOk(w: World, t: TaskId)
    requires t in w.db.tasks
  {
    if w.db.tasks[t].taskType == TaskChain then exists k: nat :: TaskOfCommit(w, t, k) else t.outpoint == ""
  }

  ghost predicate TaskOrigins(w: World) {
    forall t | t in w.db.tasks :: OriginOk(w, t)
  }

  /** Every row a commit's own chain task should have brought is there. */
  ghost predicate DigestsPresent(w: World) {
    forall k, s | 0 <= k < |w.commits| && ChainTaskId(w.commits[k]) in w.db.tasks && s in w.commits[k].subAccounts ::
      KeyUsed(w.db.records, ChainKey(w.commits[k], s))
  }

  // ---------- invariants: the jobs ----------

  ghost predicate DefaultsCover(db: Db, t: TaskId, subAccounts: seq<SubAccount>) {
    forall s | s in subAccounts :: HasDefault(db, t, s.accountId)
  }

  /** A task waiting for its transaction has a waiting record for each account the transaction changes. */
  ghost predicate PendingOk(w: World) {
    forall t | t in w.db.tasks && w.db.tasks[t].At(WriteComplete, TxPending) ::
      w.db.tasks[t].outpoint in w.built && DefaultsCover(w.db, t, w.built[w.db.tasks[t].outpoint])
  }

  ghost predicate DelegateAt(db: Db, t: TaskId, smt: SmtStatus, tx: TxStatus) {
    TaskAt(db, t, smt, tx) && db.tasks[t].taskType == TaskDelegate
  }

  ghost predicate WriteOk(w: World) {
    match w.write
    case NoWrite => true
    case WriteChecked(t, seen) => DelegateAt(w.db, t, NeedToWrite, UnSend)
    case WriteStarted(t) => DelegateAt(w.db, t, Writing, UnSend)
    case WriteTree(t, subAccounts) => DelegateAt(w.db, t, Writing, UnSend) && DefaultsCover(w.db, t, subAccounts)
    case WriteBuilt(t, outpoint) =>
      && DelegateAt(w.db, t, Writing, UnSend) && w.db.tasks[t].outpoint == outpoint
      && outpoint in w.built && DefaultsCover(w.db, t, w.built[outpoint])
  }

  ghost predicate RollsBack(db: Db, t: TaskId, list: set<Record>) {
    t in db.tasks && db.tasks[t].smtStatus == NeedToRollback && Lists(db.records, list, t)
  }

  ghost predicate RollbackOk(w: World) {
    match w.rollback
    case NoRollback => true
    case RollbackRead(t, accounts, values, list) =>
      && RollsBack(w.db, t, list)
      && forall i | HasRow(w.db, t, i) && w.db.records[i].recordType != RecordClosed ::
         w.db.records[i].accountId in accounts
    case RollbackWrote(t, list) => RollsBack(w.db, t, list)
  }

  /** The account's row was read when it was at or past the task's block, and has not gone back. */
  ghost predicate SyncedRow(w: World, t: TaskId, a: string, k: nat)
    requires t in w.db.tasks
  {
    && a in w.info && k <= w.info[a] < |w.commits|
    && w.commits[k].blockNumber >= w.db.tasks[t].blockNumber && Touches(w.commits[k], a)
  }

  ghost predicate SyncedRows(w: World, t: TaskId) {
    && TaskAt(w.db, t, NeedToWrite, Committed)
    && forall i | HasRow(w.db, t, i) ::
       w.db.records[i].accountId in w.info && w.info[w.db.records[i].accountId] < |w.commits|
         && w.commits[w.info[w.db.records[i].accountId]].blockNumber >= w.db.tasks[t].blockNumber
  }

  ghost predicate ConfirmOk(w: World) {
    match w.confirm
    case NoConfirm => true
    case ConfirmChecked(t, values) =>
      && SyncedRows(w, t)
      && (forall a | a in values :: SyncedRow(w, t, a, values[a]))
      && (forall i | HasRow(w.db, t, i) :: w.db.records[i].accountId in values)
    case ConfirmWrote(t) => SyncedRows(w, t)
  }

  // ---------- invariants: what accounts for a difference ----------

  predicate Wrote(w: World, t: TaskId) {
    w.rollback == RollbackWrote(t, if w.rollback.RollbackWrote? then w.rollback.list else {})
      || w.confirm == ConfirmWrote(t)
  }

  /** Row i makes task t answer for its account: the task is in progress, and no loop has just settled it. */
  ghost predicate Covers(w: World, t: TaskId, i: nat) {
    && HasRow(w.db, t, i) && w.db.records[i].recordType != RecordClosed
    && t in w.db.tasks && InProgress(w.db.tasks[t]) && !Wrote(w, t)
  }

  ghost predicate Covered(w: World, a: string) {
    exists t, i :: Covers(w, t, i) && w.db.records[i].accountId == a
  }

  ghost predicate Unparsed(w: World, a: string) {
    exists k :: w.parsed <= k < |w.commits| && Touches(w.commits[k], a)
  }

  ghost predicate Accounted(w: World, a: string) {
    LeafAt(w.tree, a) == ChainLeaf(w.commits, a) || Unparsed(w, a) || Covered(w, a)
  }

  ghost predicate AllAccounted(w: World) {
    forall a :: Accounted(w, a)
  }

  /** A chain task still to be confirmed covers the account for commit j. */
  ghost predicate ToConfirm(w: World, a: string, j: nat) {
    j < |w.commits| &&
    exists t, i :: Covers(w, t, i) && w.db.records[i].accountId == a && w.db.tasks[t].At(NeedToWrite, Committed)
                   && w.db.tasks[t].outpoint == w.commits[j].outpoint
  }

  /** If a row of t_smt_info from commit `at` is not the last word on the account, something is still to come. */
  ghost predicate Fresh(w: World, a: string, at: Option<nat>) {
    var j := LastTouch(w.commits, a);
    j.Some? && at != j ==> j.value >= w.parsed || ToConfirm(w, a, j.value)
  }

  function InfoOf(info: map<string, nat>, a: string): Option<nat> {
    if a in info then Some(info[a]) else None
  }

  ghost predicate AllFresh(w: World) {
    && (forall a :: Fresh(w, a, InfoOf(w.info, a)))
    && (w.confirm.ConfirmChecked? ==> forall a | a in w.confirm.values :: Fresh(w, a, Some(w.confirm.values[a])))
  }

  // ---------- the invariant ----------

  /** What holds of the tables, the chain and the jobs whatever becomes of the tree. */
  ghost predicate Core(w: World) {
    && TablesInv(w.db) && Statuses(w.db)
    && ChainOk(w) && TaskOrigins(w) && DigestsPresent(w)
    && PendingOk(w) && WriteOk(w) && RollbackOk(w) && ConfirmOk(w)
  }

  ghost predicate Inv(w: World) {
    Core(w) && AllFresh(w) && AllAccounted(w)
  }

  // ---------- runs ----------

  /** Any interleaving of the events. */
  ghost predicate ValidRun(w: World, events: seq<Event>, maxRetry: nat)
    decreases |events|
  {
    events == []
    || (Enabled(w, events[0]) && ValidRun(Apply(w, events[0], maxRetry), events[1..], maxRetry))
  }

  ghost function Run(w: World, events: seq<Event>, maxRetry: nat): World
    requires ValidRun(w, events, maxRetry)
    decreases |events|
  {
    if events == [] then w else Run(Apply(w, events[0], maxRetry), events[1..], maxRetry)
  }
}
