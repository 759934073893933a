/**
  The codes of a coupon order, drawn at random until there are enough that nobody has. The draws are a sequence; a run
  that needs more of them has no result.
 */
module CouponCodes {
  import opened Wrappers

  /** The order's number of coupons; the first draw is made before the number is looked at. */
  function Wanted(num: int): nat {
    if num < 1 then 1 else num
  }

  /** The codes among the first n draws that no coupon has yet. */
  function Free(draws: seq<string>, n: nat, existing: set<string>): set<string>
    requires n <= |draws|
  {
    set i | 0 <= i < n && draws[i] !in existing :: draws[i]
  }

  lemma FreeNext(draws: seq<string>, n: nat, existing: set<string>)
    requires n < |draws|
    ensures Free(draws, n + 1, existing) == Free(draws, n, existing) + (if draws[n] in existing then {} else {draws[n]})
  {
  }

  lemma FreeGrows(draws: seq<string>, m: nat, n: nat, existing: set<string>)
    requires m <= n <= |draws|
    ensures Free(draws, m, existing) <= Free(draws, n, existing)
  {
  }

  lemma SmallerSize(a: set<string>, b: set<string>)
    requires a <= b
    ensures |a| <= |b|
  {
    assert b == a + (b - a);
    assert |b| == |a| + |b - a|;
  }

  /** Fills the set up to the number wanted, from draw `start` on; `next` is the draw it stopped at. */
  method CreateCoupon(codes: set<string>, num: int, draws: seq<string>, start: nat, ghost existing: set<string>)
    returns (filled: set<string>, next: nat, done: bool)
    requires start <= |draws| && |codes| < Wanted(num) && codes - existing == Free(draws, start, existing)
    ensures start <= next <= |draws| && filled - existing == Free(draws, next, existing)
    ensures if done then |filled| == Wanted(num) && next > start else |filled| < Wanted(num) && next == |draws|
  {
    filled, next, done := codes, start, false;
    while next < |draws|
      invariant start <= next <= |draws| && |filled| < Wanted(num)
      invariant filled - existing == Free(draws, next, existing)
    {
      FreeNext(draws, next, existing);
      var code := draws[next];
      next := next + 1;
      if code in filled {
        continue;
      }
      filled := filled + {code};
      if |filled| >= num {
        done := true;
        return;
      }
    }
  }

  /** Draws, drops the codes that some coupon has, and draws again until none is dropped. */
  method GenerateCodes(num: int, draws: seq<string>, existing: set<string>) returns (r: Option<set<string>>)
    ensures r.Some? <==> |Free(draws, |draws|, existing)| >= Wanted(num)
    ensures r.Some? ==> |r.value| == Wanted(num) && r.value !! existing && r.value <= Free(draws, |draws|, existing)
  {
    var codes: set<string>, next := {}, 0;
    while true
      invariant next <= |draws| && |codes| < Wanted(num)
      invariant codes - existing == codes == Free(draws, next, existing)
      decreases |draws| - next
    {
      var filled, stop, done := CreateCoupon(codes, num, draws, next, existing);
      FreeGrows(draws, stop, |draws|, existing);
      if !done {
        SmallerSize(filled - existing, filled);
        return None;
      }
      var exist := filled * existing;
      codes, next := filled - exist, stop;
      assert codes == filled - existing;
      SmallerSize(codes, filled);
      if exist == {} {
        SmallerSize(codes, Free(draws, |draws|, existing));
        return Some(codes);
      }
      assert filled == codes + exist && |filled| == |codes| + |exist|;
    }
  }
}
