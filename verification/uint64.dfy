/** Go's `uint64`: values below 2^64, with sums and differences that wrap around. */
module UInt64 {
  const MODULUS: int := 0x1_0000_0000_0000_0000

  function Wrap(x: int): (r: nat)
    ensures r < MODULUS
    ensures 0 <= x < MODULUS ==> r == x
    ensures -MODULUS <= x < 0 ==> r == x + MODULUS
  {
    x % 0x1_0000_0000_0000_0000
  }

  lemma WrapCongruent(x: int, y: int, k: int)
    requires x == y + k * 0x1_0000_0000_0000_0000
    ensures Wrap(x) == Wrap(y)
  {
  }

  /** The multiple of 2^64 that wrapping drops. */
  lemma Dropped(x: int) returns (k: int)
    ensures x == Wrap(x) + k * 0x1_0000_0000_0000_0000
  {
    k := x / 0x1_0000_0000_0000_0000;
  }

  lemma WrapSum(x: int, y: int)
    ensures Wrap(Wrap(x) + y) == Wrap(x + y)
    ensures Wrap(y + Wrap(x)) == Wrap(x + y)
    ensures Wrap(y - Wrap(x)) == Wrap(y - x)
  {
    var k := Dropped(x);
    WrapCongruent(x + y, Wrap(x) + y, k);
    WrapCongruent(y - x, y - Wrap(x), -k);
  }
}
