/**
  A sub-account's life: each record turns the previous data into the next (GetCurrentSubAccountNew),
  and the block parser reads the record back from the two versions.
 */
module SubAccountReplay {
  import opened UInt64
  import opened Wrappers

  /** The text of args and the list of key-value records stay uninterpreted. */
  type Args = string

  datatype DataRecord = DataRecord(key: string, kind: string, text: string, target: string, ttl: nat)

  datatype Status = Normal | OnApproval

  datatype Approval = Approval(toLock: Args, sealedUntil: nat)

  datatype AccountData = AccountData(
    lock: Args, registeredAt: nat, expiredAt: nat, nonce: nat,
    records: seq<DataRecord>, status: Status, approval: Option<Approval>)

  datatype EditKey = Owner | Manager | Records

  datatype SubAction =
    | Create(registerArgs: Args, registerYears: nat, defaultRecords: seq<DataRecord>)
    | Renew(renewYears: nat)
    | Edit(editKey: EditKey, editArgs: Args, editRecords: seq<DataRecord>)
    | CreateApproval(editValue: Option<Approval>)
    | DelayApproval(editValue: Option<Approval>)
    | RevokeApproval(editValue: Option<Approval>)
    | FulfillApproval(editValue: Option<Approval>)

  datatype Error = ErrOldSubAccountIsNil | ErrDecode | ErrNotSupportedEditKey | ErrUnknownSubAction

  /** What can be wrong with a record's columns. */
  datatype Flaw = Sound | Undecodable | UnknownEditKey | UnknownSubAction

  const ONE_YEAR_SEC: nat := 31536000

  predicate IsApproval(a: SubAction) {
    a.CreateApproval? || a.DelayApproval? || a.RevokeApproval? || a.FulfillApproval?
  }

  // ---------- one record ----------

  /** The lock a fulfilled approval hands over; an absent approval has an empty one. */
  function ToLock(d: AccountData): Args {
    if d.approval.Some? then d.approval.value.toLock else ""
  }

  function Registered(a: SubAction, timestamp: nat): AccountData
    requires a.Create?
  {
    AccountData(a.registerArgs, timestamp, Wrap(timestamp + ONE_YEAR_SEC * a.registerYears), 0,
                a.defaultRecords, Normal, None)
  }

  function Edited(d: AccountData, a: SubAction): AccountData
    requires a.Edit?
  {
    match a.editKey
    case Owner => d.(lock := a.editArgs, records := [])
    case Manager => d.(lock := a.editArgs)
    case Records => d.(records := a.editRecords)
  }

  function Approved(d: AccountData, a: SubAction): AccountData
    requires IsApproval(a)
  {
    var moved :=
      match a
      case CreateApproval(_) => d.(status := OnApproval)
      case DelayApproval(_) => d
      case RevokeApproval(_) => d.(status := Normal, approval := None)
      case FulfillApproval(_) => d.(status := Normal, lock := ToLock(d), approval := None, records := []);
    if a.editValue.Some? then moved.(approval := a.editValue) else moved
  }

  function Next(d: AccountData, a: SubAction): AccountData
    requires !a.Create?
  {
    var body :=
      if a.Renew? then d.(expiredAt := Wrap(d.expiredAt + ONE_YEAR_SEC * a.renewYears))
      else if a.Edit? then Edited(d, a)
      else Approved(d, a);
    body.(nonce := Wrap(d.nonce + 1))
  }

  /** GetCurrentSubAccountNew: copies the old data and assigns the fields its sub-action changes. */
  method GetCurrentSubAccountNew(oldAccount: Option<AccountData>, a: SubAction, flaw: Flaw, timestamp: nat)
    returns (r: Result<AccountData, Error>)
    ensures r == if flaw == UnknownSubAction then Err(ErrUnknownSubAction)
                 else if !a.Create? && oldAccount.None? then Err(ErrOldSubAccountIsNil)
                 else if a.Edit? && flaw == UnknownEditKey then Err(ErrNotSupportedEditKey)
                 else if flaw == Undecodable
                         && (a.Create? || (a.Edit? && a.editKey == Records) || (IsApproval(a) && a.editValue != None))
                 then Err(ErrDecode)
                 else if a.Create? then Ok(Registered(a, timestamp)) else Ok(Next(oldAccount.value, a))
  {
    if flaw == UnknownSubAction {
      return Err(ErrUnknownSubAction);
    }
    if a.Create? {
      if flaw == Undecodable {
        return Err(ErrDecode);
      }
      var expiredAt := Wrap(timestamp + ONE_YEAR_SEC * a.registerYears);
      return Ok(AccountData(a.registerArgs, timestamp, expiredAt, 0, a.defaultRecords, Normal, None));
    }
    if oldAccount.None? {
      return Err(ErrOldSubAccountIsNil);
    }
    var prior := oldAccount.value;
    var current := prior;
    if a.Renew? {
      current := current.(nonce := Wrap(current.nonce + 1));
      current := current.(expiredAt := Wrap(current.expiredAt + ONE_YEAR_SEC * a.renewYears));
    } else if a.Edit? {
      if flaw == UnknownEditKey {
        return Err(ErrNotSupportedEditKey);
      }
      if a.editKey.Owner? {
        current := current.(lock := a.editArgs);
        current := current.(records := []);
      } else if a.editKey.Manager? {
        current := current.(lock := a.editArgs);
      } else {
        if flaw == Undecodable {
          return Err(ErrDecode);
        }
        current := current.(records := a.editRecords);
      }
      current := current.(nonce := Wrap(current.nonce + 1));
    } else {
      if a.CreateApproval? {
        current := current.(status := OnApproval);
      } else if a.RevokeApproval? {
        current := current.(status := Normal);
        current := current.(approval := None);
      } else if a.FulfillApproval? {
        current := current.(status := Normal);
        current := current.(lock := ToLock(prior));
        current := current.(approval := None);
        current := current.(records := []);
      }
      current := current.(nonce := Wrap(current.nonce + 1));
      if a.editValue.Some? {
        if flaw == Undecodable {
          return Err(ErrDecode);
        }
        current := current.(approval := a.editValue);
      }
    }
    return Ok(current);
  }

  // ---------- replaying a life ----------

  predicate Later(actions: seq<SubAction>) {
    forall a | a in actions :: !a.Create?
  }

  function Replay(d: AccountData, actions: seq<SubAction>): AccountData
    requires Later(actions)
    decreases |actions|
  {
    if actions == [] then d
    else Next(Replay(d, actions[..|actions| - 1]), actions[|actions| - 1])
  }

  function Years(actions: seq<SubAction>): nat
    decreases |actions|
  {
    if actions == [] then 0
    else Years(actions[..|actions| - 1]) + YearsOf(actions[|actions| - 1])
  }

  function YearsOf(a: SubAction): nat {
    if a.Create? then a.registerYears else if a.Renew? then a.renewYears else 0
  }

  /** In 64-bit arithmetic, unconditionally: one nonce step per later action, one year of seconds per paid year. */
  lemma {:induction false} ReplayCounts(create: SubAction, timestamp: nat, actions: seq<SubAction>)
    requires create.Create? && timestamp < MODULUS && Later(actions)
    ensures var d := Replay(Registered(create, timestamp), actions);
            && d.nonce == Wrap(|actions|)
            && d.registeredAt == timestamp
            && d.expiredAt == Wrap(timestamp + ONE_YEAR_SEC * (create.registerYears + Years(actions)))
    decreases |actions|
  {
    hide Wrap;
    if actions != [] {
      var init, last := actions[..|actions| - 1], actions[|actions| - 1];
      ReplayCounts(create, timestamp, init);
      var before := timestamp + ONE_YEAR_SEC * (create.registerYears + Years(init));
      WrapSum(before, ONE_YEAR_SEC * YearsOf(last));
      WrapSum(|init|, 1);
      assert ONE_YEAR_SEC * (create.registerYears + Years(init) + YearsOf(last))
          == ONE_YEAR_SEC * (create.registerYears + Years(init)) + ONE_YEAR_SEC * YearsOf(last);
    }
  }

  /** Without overflow the counters are the plain sums, and only then. */
  lemma ReplayCountsExactly(create: SubAction, timestamp: nat, actions: seq<SubAction>)
    requires create.Create? && timestamp < MODULUS && Later(actions)
    ensures var d := Replay(Registered(create, timestamp), actions);
            && (d.nonce == |actions| <==> |actions| < MODULUS)
            && (d.expiredAt == timestamp + ONE_YEAR_SEC * (create.registerYears + Years(actions)) <==>
                timestamp + ONE_YEAR_SEC * (create.registerYears + Years(actions)) < MODULUS)
  {
    ReplayCounts(create, timestamp, actions);
    hide Replay, Registered, Years;
  }

  // ---------- approvals ----------

  predicate HeldIffOnApproval(d: AccountData) {
    d.status.OnApproval? <==> d.approval.Some?
  }

  /** The approval value an action carries fits the state it meets. */
  predicate Admissible(d: AccountData, a: SubAction) {
    match a
    case CreateApproval(value) => value.Some? || d.approval.Some?
    case DelayApproval(value) => value.Some? ==> d.approval.Some?
    case RevokeApproval(value) => value.None?
    case FulfillApproval(value) => value.None?
    case _ => true
  }

  predicate AdmissibleAll(d: AccountData, actions: seq<SubAction>)
    requires Later(actions)
    decreases |actions|
  {
    actions == []
    || (AdmissibleAll(d, actions[..|actions| - 1])
        && Admissible(Replay(d, actions[..|actions| - 1]), actions[|actions| - 1]))
  }

  ghost predicate HeldAlongTheWay(d: AccountData, actions: seq<SubAction>)
    requires Later(actions)
  {
    forall k | 0 <= k <= |actions| :: HeldIffOnApproval(Replay(d, actions[..k]))
  }

  lemma HeldNext(d: AccountData, a: SubAction)
    requires HeldIffOnApproval(d) && !a.Create?
    ensures HeldIffOnApproval(Next(d, a)) <==> Admissible(d, a)
  {
  }

  /** An account is on approval exactly while it holds one, at every point of its life, iff every action fits. */
  lemma {:induction false} OnApprovalWhileHeld(create: SubAction, timestamp: nat, actions: seq<SubAction>)
    requires create.Create? && Later(actions)
    ensures HeldAlongTheWay(Registered(create, timestamp), actions)
            <==> AdmissibleAll(Registered(create, timestamp), actions)
    decreases |actions|
  {
    var d := Registered(create, timestamp);
    if actions == [] {
      assert actions[..0] == actions;
    } else {
      var init, last := actions[..|actions| - 1], actions[|actions| - 1];
      OnApprovalWhileHeld(create, timestamp, init);
      HeldSnoc(d, actions);
      if HeldAlongTheWay(d, init) {
        HeldNext(Replay(d, init), last);
      }
      hide Next, Admissible, HeldIffOnApproval, HeldAlongTheWay, Registered;
    }
  }

  lemma HeldSnoc(d: AccountData, actions: seq<SubAction>)
    requires Later(actions) && actions != []
    ensures var init := actions[..|actions| - 1];
            && Later(init)
            && (HeldAlongTheWay(d, init) ==> HeldIffOnApproval(Replay(d, init)))
            && (HeldAlongTheWay(d, actions) <==> HeldAlongTheWay(d, init) && HeldIffOnApproval(Replay(d, actions)))
  {
    var n := |actions|;
    var init := actions[..n - 1];
    assert actions[..n] == actions && init[..n - 1] == init;
    assert forall k | 0 <= k <= n - 1 :: init[..k] == actions[..k];
    hide Replay, HeldIffOnApproval;
  }

  // ---------- the owner ----------

  predicate SetsLock(a: SubAction) {
    a.FulfillApproval? || (a.Edit? && !a.editKey.Records?)
  }

  /** Only owner edits, manager edits and fulfilled approvals change the lock. */
  lemma {:induction false} LockUntouched(d: AccountData, actions: seq<SubAction>)
    requires Later(actions) && forall a | a in actions :: !SetsLock(a)
    ensures Replay(d, actions).lock == d.lock
    decreases |actions|
  {
    if actions != [] {
      LockUntouched(d, actions[..|actions| - 1]);
      assert actions[|actions| - 1] in actions;
    }
  }

  /** A new account belongs to whom it was registered for, with the default records. */
  lemma RegisteredFor(create: SubAction, timestamp: nat)
    requires create.Create?
    ensures var d := Replay(Registered(create, timestamp), []);
            && d.lock == create.registerArgs && d.records == create.defaultRecords
            && d.registeredAt == timestamp && d.expiredAt == Wrap(timestamp + 31536000 * create.registerYears)
            && d.status == Normal && d.approval == None && d.nonce == 0
  {
  }

  /**
    Whatever came before: an owner edit sets the lock and empties the records, a manager edit sets the lock and keeps
    them, a records edit replaces them; none of these, and no renewal, touches an approval.
   */
  lemma EditsAre(d: AccountData, actions: seq<SubAction>, args: Args, records: seq<DataRecord>, years: nat)
    requires Later(actions)
    ensures Later(actions + [Edit(Owner, args, records)]) && Later(actions + [Edit(Manager, args, records)])
    ensures Later(actions + [Edit(Records, args, records)]) && Later(actions + [Renew(years)])
    ensures var before := Replay(d, actions);
            var nonce := Wrap(before.nonce + 1);
            && Replay(d, actions + [Edit(Owner, args, records)]) == before.(lock := args, records := [], nonce := nonce)
            && Replay(d, actions + [Edit(Manager, args, records)]) == before.(lock := args, nonce := nonce)
            && Replay(d, actions + [Edit(Records, args, records)]) == before.(records := records, nonce := nonce)
            && Replay(d, actions + [Renew(years)])
               == before.(expiredAt := Wrap(before.expiredAt + 31536000 * years), nonce := nonce)
  {
    hide Replay, Later, Wrap;
    ReplayLast(d, actions, Edit(Owner, args, records));
    ReplayLast(d, actions, Edit(Manager, args, records));
    ReplayLast(d, actions, Edit(Records, args, records));
    ReplayLast(d, actions, Renew(years));
  }

  lemma ReplayLast(d: AccountData, actions: seq<SubAction>, a: SubAction)
    requires Later(actions) && !a.Create?
    ensures Later(actions + [a]) && Replay(d, actions + [a]) == Next(Replay(d, actions), a)
  {
    assert (actions + [a])[..|actions|] == actions;
  }

  /** Between an approval and its end: delays, renewals and edits. */
  predicate Between(actions: seq<SubAction>) {
    forall a | a in actions :: a.DelayApproval? || a.Renew? || a.Edit?
  }

  /** The value of the last delay that carries one, else the approval's own. */
  function LastCarried(first: Approval, between: seq<SubAction>): Approval
    decreases |between|
  {
    if between == [] then first
    else
      var last := between[|between| - 1];
      if last.DelayApproval? && last.editValue.Some? then last.editValue.value
      else LastCarried(first, between[..|between| - 1])
  }

  lemma {:induction false} CarriedIsHeld(d: AccountData, first: Approval, between: seq<SubAction>)
    requires Between(between)
    ensures Later([CreateApproval(Some(first))] + between)
    ensures Replay(d, [CreateApproval(Some(first))] + between).approval == Some(LastCarried(first, between))
    ensures Replay(d, [CreateApproval(Some(first))] + between).status == OnApproval
    decreases |between|
  {
    var create := CreateApproval(Some(first));
    if between == [] {
      assert [create] + between == [] + [create];
      ReplayLast(d, [], create);
    } else {
      var init, last := between[..|between| - 1], between[|between| - 1];
      assert [create] + between == [create] + init + [last] && last in between;
      CarriedIsHeld(d, first, init);
      ReplayLast(d, [create] + init, last);
      hide Replay, Later;
    }
  }

  /**
    An approval is fulfilled for the account's new owner: that of the last value the approval or one of its delays
    carried, whatever renewals and edits came between. The records go and nothing is held any more. Revoked instead,
    the account keeps the owner and the records it has.
   */
  lemma ApprovalEnds(d: AccountData, first: Approval, between: seq<SubAction>)
    requires Between(between)
    ensures var actions := [CreateApproval(Some(first))] + between;
            && Later(actions) && Later(actions + [FulfillApproval(None)]) && Later(actions + [RevokeApproval(None)])
            && var before := Replay(d, actions);
            && Replay(d, actions + [FulfillApproval(None)]) ==
                 before.(lock := LastCarried(first, between).toLock, records := [], status := Normal, approval := None,
                         nonce := Wrap(before.nonce + 1))
            && Replay(d, actions + [RevokeApproval(None)]) ==
                 before.(status := Normal, approval := None, nonce := Wrap(before.nonce + 1))
  {
    var actions := [CreateApproval(Some(first))] + between;
    CarriedIsHeld(d, first, between);
    ReplayLast(d, actions, FulfillApproval(None));
    ReplayLast(d, actions, RevokeApproval(None));
  }

  // ---------- the parser's inverse ----------

  /** What the block parser stores about one sub-account of a transaction. */
  datatype ChainRecord = ChainRecord(
    nonce: nat, registerArgs: Args, registerYears: nat, renewYears: nat, editArgs: Args, editRecords: seq<DataRecord>)

  /** The parts of the witness the parser copies: edit arguments by edit key. */
  function WitnessEditArgs(a: SubAction): Args {
    if a.Edit? && !a.editKey.Records? then a.editArgs else ""
  }

  function WitnessEditRecords(a: SubAction): seq<DataRecord> {
    if a.Edit? && a.editKey.Records? then a.editRecords else []
  }

  /**
    getTaskAndSmtRecordsNew for one sub-account: a create reads its own data, every other action the data
    before (`prev`) and after (`current`).
   */
  function ParseRecord(a: SubAction, prev: AccountData, current: AccountData): ChainRecord {
    ChainRecord(
      current.nonce,
      if a.Create? then prev.lock else "",
      if a.Create? then Wrap(prev.expiredAt - prev.registeredAt) / ONE_YEAR_SEC else 0,
      if a.Renew? then Wrap(current.expiredAt - prev.expiredAt) / ONE_YEAR_SEC else 0,
      WitnessEditArgs(a),
      WitnessEditRecords(a))
  }

  /** The parser reads back the years that were paid, exactly when they fit 64 bits of seconds. */
  lemma YearsRecovered(create: SubAction, timestamp: nat, d: AccountData, a: SubAction)
    requires create.Create? && a.Renew?
    ensures var r := Registered(create, timestamp);
            ParseRecord(create, r, r).registerYears == create.registerYears
            <==> ONE_YEAR_SEC * create.registerYears < MODULUS
    ensures ParseRecord(a, d, Next(d, a)).renewYears == a.renewYears <==> ONE_YEAR_SEC * a.renewYears < MODULUS
  {
    WrapSum(timestamp + ONE_YEAR_SEC * create.registerYears, 0 - timestamp as int);
    WrapSum(d.expiredAt + ONE_YEAR_SEC * a.renewYears, 0 - d.expiredAt as int);
  }

  /** Every other parsed column is the one the record carried, and the nonce is one above the previous one. */
  lemma ColumnsRecovered(d: AccountData, a: SubAction)
    requires !a.Create? && d.nonce < MODULUS - 1
    ensures var r := ParseRecord(a, d, Next(d, a));
            && r.nonce == d.nonce + 1
            && (a.Edit? && !a.editKey.Records? ==> r.editArgs == a.editArgs == Next(d, a).lock)
            && (a.Edit? && a.editKey.Records? ==> r.editRecords == a.editRecords == Next(d, a).records)
            && (!a.Edit? ==> r.editArgs == "" && r.editRecords == [])
  {
  }
}
