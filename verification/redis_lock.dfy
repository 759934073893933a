/**
  The per-account Redis lock: SET NX with an expiry, a renewal ticker, and an unconditional DEL.
  Time is counted in seconds.
 */
module RedisLock {
  import opened Wrappers

  const LOCK_TIME: nat := 180

  // ---------- one Redis key ----------

  /** A key is its deadline; Redis drops it when the deadline is reached. */
  type Key = Option<nat>

  predicate Live(key: Key, now: nat) {
    key.Some? && now < key.value
  }

  function SetNX(key: Key, now: nat): Key {
    if Live(key, now) then key else Some(now + LOCK_TIME)
  }

  function Expire(key: Key, now: nat): Key {
    if Live(key, now) then Some(now + LOCK_TIME) else None
  }

  datatype LockError = NoError | ErrDistributedLockPreemption

  class RedisCache {
    var now: nat
    var keys: map<string, nat>

    function KeyOf(accountId: string): Key
      reads this
    {
      var k := "lock:account_id:" + accountId;
      if k in keys then Some(keys[k]) else None
    }

    method LockWithRedis(accountId: string) returns (err: LockError)
      modifies this`keys
      ensures KeyOf(accountId) == SetNX(old(KeyOf(accountId)), now)
      ensures err == NoError <==> !Live(old(KeyOf(accountId)), now)
      ensures forall other | other != accountId :: KeyOf(other) == old(KeyOf(other))
    {
      var k := "lock:account_id:" + accountId;
      forall other | other != accountId ensures "lock:account_id:" + other != k {
        assert other == ("lock:account_id:" + other)[16..] && accountId == k[16..];
      }
      if k in keys && now < keys[k] {
        return ErrDistributedLockPreemption;
      }
      keys := keys[k := now + LOCK_TIME];
      return NoError;
    }

    method UnLockWithRedis(accountId: string)
      modifies this`keys
      ensures KeyOf(accountId) == None
      ensures forall other | other != accountId :: KeyOf(other) == old(KeyOf(other))
    {
      var k := "lock:account_id:" + accountId;
      forall other | other != accountId ensures "lock:account_id:" + other != k {
        assert other == ("lock:account_id:" + other)[16..] && accountId == k[16..];
      }
      keys := keys - {k};
    }

    /** One tick of DoLockExpire. */
    method RenewTick(accountId: string) returns (ok: bool)
      modifies this`keys
      ensures KeyOf(accountId) == Expire(old(KeyOf(accountId)), now)
      ensures ok <==> Live(old(KeyOf(accountId)), now)
      ensures forall other | other != accountId :: KeyOf(other) == old(KeyOf(other))
    {
      var k := "lock:account_id:" + accountId;
      forall other | other != accountId ensures "lock:account_id:" + other != k {
        assert other == ("lock:account_id:" + other)[16..] && accountId == k[16..];
      }
      ok := k in keys && now < keys[k];
      keys := if ok then keys[k := now + LOCK_TIME] else keys - {k};
    }
  }

  // ---------- the protocol for one account ----------

  type Client = nat

  /** `touched` is when the holder last acquired or renewed. */
  datatype Phase = Idle | InSection(touched: nat) | Crashed

  /** `late` are clients whose renewal ticker outlives the release of the section it served. */
  datatype Lock = Lock(now: nat, key: Key, phases: map<Client, Phase>, late: set<Client>) {
    function PhaseOf(c: Client): Phase {
      if c in phases then phases[c] else Idle
    }

    predicate Holds(c: Client) {
      PhaseOf(c).InSection?
    }
  }

  datatype Event =
    | Acquire(c: Client)
    | Renew(c: Client)
    | Release(c: Client)
    | LateRenew(c: Client)
    | LateStop(c: Client)
    | Crash(c: Client)
    | Tick

  /** A live holder's acquire and renewals are less than LOCK_TIME apart. */
  ghost predicate Timely(s: Lock, now: nat) {
    forall c | s.Holds(c) :: now < s.PhaseOf(c).touched + LOCK_TIME
  }

  ghost predicate Enabled(s: Lock, e: Event) {
    match e
    case Acquire(c) => s.PhaseOf(c).Idle?
    case Renew(c) => s.Holds(c)
    case Release(c) => s.Holds(c)
    case LateRenew(c) => c in s.late
    case LateStop(c) => c in s.late
    case Crash(c) => !s.PhaseOf(c).Crashed?
    case Tick => Timely(s, s.now + 1)
  }

  function Apply(s: Lock, e: Event): Lock {
    match e
    case Acquire(c) =>
      if Live(s.key, s.now) then s
      else s.(key := SetNX(s.key, s.now), phases := s.phases[c := InSection(s.now)])
    case Renew(c) =>
      if Live(s.key, s.now) then s.(key := Expire(s.key, s.now), phases := s.phases[c := InSection(s.now)])
      else s.(key := None)
    case Release(c) => s.(key := None, phases := s.phases[c := Idle], late := s.late + {c})
    case LateRenew(c) => s.(key := Expire(s.key, s.now))
    case LateStop(c) => s.(late := s.late - {c})
    case Crash(c) => s.(phases := s.phases[c := Crashed], late := s.late - {c})
    case Tick => s.(now := s.now + 1)
  }

  function Run(s: Lock, events: seq<Event>): Lock
    decreases |events|
  {
    if events == [] then s else Run(Apply(s, events[0]), events[1..])
  }

  ghost predicate ValidRun(s: Lock, events: seq<Event>)
    decreases |events|
  {
    events == [] || (Enabled(s, events[0]) && ValidRun(Apply(s, events[0]), events[1..]))
  }

  const START := Lock(0, None, map[], {})

  ghost predicate Exclusive(s: Lock) {
    forall c, d | s.Holds(c) && s.Holds(d) :: c == d
  }

  ghost predicate Inv(s: Lock) {
    && Exclusive(s)
    && Timely(s, s.now)
    && (forall c | s.Holds(c) :: s.key.Some? && s.PhaseOf(c).touched + LOCK_TIME <= s.key.value)
    && (s.key.Some? ==> s.key.value <= s.now + LOCK_TIME)
  }

  lemma ApplyKeepsInv(s: Lock, e: Event)
    requires Inv(s) && Enabled(s, e)
    ensures Inv(Apply(s, e))
  {
    var t := Apply(s, e);
    forall c | t.Holds(c)
      ensures s.Holds(c) || (e == Acquire(c) && !Live(s.key, s.now))
      ensures t.PhaseOf(c) == s.PhaseOf(c) || t.PhaseOf(c).touched == s.now
    {
    }
    forall c | s.Holds(c) ensures Live(s.key, s.now) {}
  }

  lemma {:induction false} RunKeepsInv(s: Lock, events: seq<Event>)
    requires Inv(s) && ValidRun(s, events)
    ensures Inv(Run(s, events))
    decreases |events|
  {
    if events != [] {
      ApplyKeepsInv(s, events[0]);
      RunKeepsInv(Apply(s, events[0]), events[1..]);
    }
  }

  /** In every interleaving, late renewals and crashes included, at most one client is in the section. */
  lemma MutualExclusion(events: seq<Event>)
    requires ValidRun(START, events)
    ensures Exclusive(Run(START, events))
  {
    RunKeepsInv(START, events);
  }

  /** What the timeliness assumption buys: a holder is safe from other clients exactly while the key lives. */
  lemma ExclusionNeedsLiveKey(s: Lock, holder: Client)
    requires Exclusive(s) && s.Holds(holder)
    ensures Live(s.key, s.now) <==>
            forall c | Enabled(s, Acquire(c)) :: Exclusive(Apply(s, Acquire(c)))
  {
    if !Live(s.key, s.now) {
      var c := Above(s.phases.Keys);
      assert s.PhaseOf(c).Idle?;
      var t := Apply(s, Acquire(c));
      assert t.Holds(c) && t.Holds(holder);
    }
  }

  lemma Above(clients: set<Client>) returns (c: Client)
    ensures forall d | d in clients :: d < c
  {
    if clients == {} {
      c := 0;
    } else {
      var d :| d in clients;
      var b := Above(clients - {d});
      c := if d < b then b else d + 1;
      forall e | e in clients ensures e < c {
        assert e == d || e in clients - {d};
      }
    }
  }

  // ---------- crashed holders ----------

  /** No renewal by a ticker that outlived its section. */
  predicate NoLateRenewals(events: seq<Event>) {
    forall e | e in events :: !e.LateRenew?
  }

  ghost predicate NobodyHolds(s: Lock) {
    forall c :: !s.Holds(c)
  }

  /** Every attempt to acquire during the run finds the key taken. */
  ghost predicate AllPreempted(s: Lock, events: seq<Event>)
    decreases |events|
  {
    events == []
    || ((events[0].Acquire? ==> Live(s.key, s.now)) && AllPreempted(Apply(s, events[0]), events[1..]))
  }

  lemma {:induction false} KeyFrozen(s: Lock, events: seq<Event>)
    requires NobodyHolds(s) && ValidRun(s, events) && NoLateRenewals(events) && AllPreempted(s, events)
    ensures NobodyHolds(Run(s, events)) && Run(s, events).key == s.key
    decreases |events|
  {
    if events != [] {
      assert events[0] in events;
      var t := Apply(s, events[0]);
      forall c ensures !t.Holds(c) {
        assert !s.Holds(c);
      }
      KeyFrozen(t, events[1..]);
    }
  }

  /**
    After its only holder crashes, the key outlives the crash by at most the lock time, unless a ticker
    left over from an earlier section renews it: while attempts keep failing, less than that has passed.
   */
  lemma CrashedHolderExpires(s: Lock, holder: Client, events: seq<Event>)
    requires Inv(s) && s.Holds(holder)
    requires ValidRun(Apply(s, Crash(holder)), events) && NoLateRenewals(events)
    requires AllPreempted(Apply(s, Crash(holder)), events)
    ensures var end := Run(Apply(s, Crash(holder)), events);
            Live(end.key, end.now) ==> end.now < s.now + 180
  {
    var t := Apply(s, Crash(holder));
    forall c ensures !t.Holds(c) {
      assert s.Holds(c) ==> c == holder;
    }
    KeyFrozen(t, events);
  }
}
