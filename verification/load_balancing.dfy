/**
  Consistent hashing: every configured server owns `100 * weight` spots of a 32-bit ring, and a key
  belongs to the first spot at or above its checksum, or to the last spot.
 */
module LoadBalance {

  const DEFAULT_NUM: nat := 100

  type Checksum = string -> nat

  datatype ConfigServer = ConfigServer(name: string, url: string, weight: nat)

  datatype Server = Server(name: string, url: string, spotVal: nat)

  // ---------- the spots ----------

  function Digits(n: nat): string {
    if n < 10 then [('0' as int + n) as char] else Digits(n / 10) + [('0' as int + n % 10) as char]
  }

  function Spot(checksum: Checksum, v: ConfigServer, i: nat): Server {
    Server(v.name, v.url, checksum(v.name + ":" + v.url + ":" + Digits(i)))
  }

  function SpotsOf(checksum: Checksum, v: ConfigServer): seq<Server> {
    seq(DEFAULT_NUM * v.weight, i requires 0 <= i => Spot(checksum, v, i))
  }

  function Spots(checksum: Checksum, list: seq<ConfigServer>): seq<Server>
    decreases |list|
  {
    if list == [] then [] else Spots(checksum, list[..|list| - 1]) + SpotsOf(checksum, list[|list| - 1])
  }

  /** Reading decimal digits back. */
  function Value(digits: string): int
    decreases |digits|
  {
    if digits == [] then 0
    else Value(digits[..|digits| - 1]) * 10 + (digits[|digits| - 1] as int - '0' as int)
  }

  lemma {:induction false} DigitsValue(n: nat)
    ensures Value(Digits(n)) == n
  {
    if n < 10 {
      assert Digits(n)[..0] == [];
    } else {
      DigitsValue(n / 10);
      assert Digits(n)[..|Digits(n)| - 1] == Digits(n / 10);
    }
  }

  function SpotText(v: ConfigServer, i: nat): string {
    v.name + ":" + v.url + ":" + Digits(i)
  }

  /** A server has a hundred spots per unit of weight; different ones hash different texts. */
  lemma SpotsAre(checksum: Checksum, v: ConfigServer, i: nat, j: nat)
    requires i < j < 100 * v.weight
    ensures |SpotsOf(checksum, v)| == 100 * v.weight
    ensures SpotsOf(checksum, v)[i] == Server(v.name, v.url, checksum(SpotText(v, i)))
    ensures SpotText(v, i) != SpotText(v, j)
  {
    DigitsValue(i);
    DigitsValue(j);
    var prefix := v.name + ":" + v.url + ":";
    assert SpotText(v, i)[|prefix|..] == Digits(i) && SpotText(v, j)[|prefix|..] == Digits(j);
  }

  ghost predicate Sorted(s: seq<Server>) {
    forall i, j | 0 <= i < j < |s| :: s[i].spotVal <= s[j].spotVal
  }

  ghost predicate DistinctSpots(ring: set<Server>) {
    forall a, b | a in ring && b in ring && a.spotVal == b.spotVal :: a == b
  }

  ghost function Ring(s: seq<Server>): set<Server> {
    set x | x in s
  }

  // ---------- ownership, independent of order ----------

  /** `s` is the lowest spot of the ring at or above `v`, or its highest when there is none. */
  ghost predicate Owns(ring: set<Server>, v: nat, s: Server) {
    && s in ring
    && if s.spotVal >= v then forall x | x in ring && x.spotVal >= v :: s.spotVal <= x.spotVal
       else forall x | x in ring :: x.spotVal <= s.spotVal
  }

  /** Whether a new spot takes over the key `v` from its owner `t`. */
  predicate Captures(n: Server, v: nat, t: Server) {
    if t.spotVal >= v then v <= n.spotVal < t.spotVal else n.spotVal > t.spotVal
  }

  /** With spots added, a key stays with its owner unless one of the new spots captures it. */
  lemma AddedSpots(ring: set<Server>, added: set<Server>, v: nat, before: Server, after: Server)
    requires DistinctSpots(ring + added) && ring !! added
    requires Owns(ring, v, before) && Owns(ring + added, v, after)
    ensures after == before || after in added
    ensures after in added <==> exists n | n in added :: Captures(n, v, before)
  {
  }

  class LoadBalancing {
    const checksum: Checksum
    var servers: seq<Server>

    /** NewLoadBalancing. */
    constructor (checksum: Checksum, list: seq<ConfigServer>)
      ensures this.checksum == checksum
      ensures Sorted(servers) && multiset(servers) == multiset(Spots(checksum, list))
    {
      this.checksum := checksum;
      servers := [];
      new;
      for k := 0 to |list|
        invariant servers == Spots(checksum, list[..k])
      {
        var v := list[k];
        var totalNum := DEFAULT_NUM * v.weight;
        ghost var done := servers;
        for i := 0 to totalNum
          invariant servers == done + SpotsOf(checksum, v)[..i]
        {
          var tmpStr := v.name + ":" + v.url + ":" + Digits(i);
          var spotVal := checksum(tmpStr);
          servers := servers + [Server(v.name, v.url, spotVal)];
        }
        assert list[..k + 1][..k] == list[..k];
      }
      assert list[..|list|] == list;
      Sort();
    }

    method Swap(i: nat, j: nat)
      requires i < |servers| && j < |servers|
      modifies this`servers
      ensures servers == old(servers)[i := old(servers)[j]][j := old(servers)[i]]
      ensures multiset(servers) == multiset(old(servers))
    {
      servers := servers[i := servers[j]][j := servers[i]];
    }

    /** Only Less and Swap are the repository's; sort.Sort is the library's, an insertion sort for short slices. */
    method Sort()
      modifies this`servers
      ensures Sorted(servers) && multiset(servers) == multiset(old(servers))
    {
      for i := 0 to |servers|
        invariant |servers| == |old(servers)| && multiset(servers) == multiset(old(servers))
        invariant Sorted(servers[..i])
      {
        var j := i;
        while j > 0 && servers[j].spotVal < servers[j - 1].spotVal
          invariant j <= i && |servers| == |old(servers)| && multiset(servers) == multiset(old(servers))
          invariant forall a, b | 0 <= a < b <= i && b != j :: servers[a].spotVal <= servers[b].spotVal
        {
          Swap(j, j - 1);
          j := j - 1;
        }
      }
    }

    /** The binary search of sort.Search over all but the last spot. */
    method GetServer(key: string) returns (s: Server)
      requires Sorted(servers) && servers != []
      ensures Owns(Ring(servers), checksum(key), s)
      ensures exists i ::
                && 0 <= i < |servers| && s == servers[i]
                && (forall j | 0 <= j < i :: servers[j].spotVal < checksum(key))
                && (i < |servers| - 1 ==> s.spotVal >= checksum(key))
    {
      var uint32Val := checksum(key);
      var i, j := 0, |servers| - 1;
      while i < j
        invariant 0 <= i <= j <= |servers| - 1
        invariant forall k | 0 <= k < i :: servers[k].spotVal < uint32Val
        invariant j < |servers| - 1 ==> servers[j].spotVal >= uint32Val
      {
        var h := (i + j) / 2;
        if !(servers[h].spotVal >= uint32Val) {
          i := h + 1;
        } else {
          j := h;
        }
      }
      s := servers[i];
      assert forall x | x in servers :: exists k :: 0 <= k < |servers| && servers[k] == x;
    }
  }

  // ---------- adding and removing a configured server ----------

  /** Sorting keeps the ring: the servers of a load balancer own what its configured spots own. */
  lemma RingOfPermutation(s: seq<Server>, t: seq<Server>)
    requires multiset(s) == multiset(t)
    ensures Ring(s) == Ring(t)
  {
    forall x ensures x in s <==> x in t {
      assert x in s <==> x in multiset(s);
      assert x in t <==> x in multiset(t);
    }
  }

  /**
    Configuring one more server, with all spots distinct, leaves every key where it was or moves it to
    the new server; read backwards, removing a server moves only the keys it held.
   */
  lemma AddedServer(checksum: Checksum, list: seq<ConfigServer>, v: ConfigServer, key: string, before: Server,
      after: Server)
    requires DistinctSpots(Ring(Spots(checksum, list + [v])))
    requires Ring(Spots(checksum, list)) !! Ring(SpotsOf(checksum, v))
    requires Owns(Ring(Spots(checksum, list)), checksum(key), before)
    requires Owns(Ring(Spots(checksum, list + [v])), checksum(key), after)
    ensures after == before || (after.name == v.name && after.url == v.url)
    ensures after != before <==> exists n | n in SpotsOf(checksum, v) :: Captures(n, checksum(key), before)
  {
  }
}
