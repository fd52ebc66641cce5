/** Integers of 64 bits, as the program's arithmetic and its database columns hold them. */
module Integers {
  const TWO_TO_THE_63 := 0x8000_0000_0000_0000
  const TWO_TO_THE_64 := 0x1_0000_0000_0000_0000
  const MAX_INT64 := 0x7fff_ffff_ffff_ffff

  type int64 = x: int | -TWO_TO_THE_63 <= x < TWO_TO_THE_63

  predicate FitsInt64(x: int)
  {
    -TWO_TO_THE_63 <= x < TWO_TO_THE_63
  }

  // What is left of a result that does not fit.
  function Wrapped(x: int): (y: int64)
    ensures FitsInt64(x) ==> y == x
  {
    (x + TWO_TO_THE_63) % TWO_TO_THE_64 - TWO_TO_THE_63
  }

  // The smallest 64-bit number is its own negation.
  function Negated(x: int64): (y: int64)
    ensures x > -TWO_TO_THE_63 ==> y == -x
  {
    Wrapped(0 - x)
  }

  lemma WrapsToZero(x: int)
    ensures Wrapped(x) == 0 <==> x % TWO_TO_THE_64 == 0
  {
    var k, r := x / TWO_TO_THE_64, x % TWO_TO_THE_64;
    assert x + TWO_TO_THE_63 == k * TWO_TO_THE_64 + (r + TWO_TO_THE_63);
    assert (x + TWO_TO_THE_63) % TWO_TO_THE_64 == (r + TWO_TO_THE_63) % TWO_TO_THE_64;
  }

  // A result that is not negative never wraps to something larger.
  lemma WrapsDown(x: int)
    requires 0 <= x
    ensures Wrapped(x) <= x
  {
    if x >= TWO_TO_THE_63 {
      var y: int := Wrapped(x);
      assert y < TWO_TO_THE_63;
    }
  }

  lemma WrapsApart(x: int, y: int)
    ensures Wrapped(Wrapped(x) - Wrapped(y)) == Wrapped(x - y)
  {
    var j, k := (x + TWO_TO_THE_63) / TWO_TO_THE_64, (y + TWO_TO_THE_63) / TWO_TO_THE_64;
    assert Wrapped(x) == x - j * TWO_TO_THE_64 && Wrapped(y) == y - k * TWO_TO_THE_64;
    WrapsAround(x - y, k - j);
  }

  lemma WrapsAround(x: int, k: int)
    ensures Wrapped(x + k * TWO_TO_THE_64) == Wrapped(x)
  {
    assert (x + TWO_TO_THE_63 + k * TWO_TO_THE_64) % TWO_TO_THE_64 == (x + TWO_TO_THE_63) % TWO_TO_THE_64;
  }

  lemma WrapsOver()
    ensures Wrapped(TWO_TO_THE_63) == -TWO_TO_THE_63
  {
  }

  lemma WrapsOnce(x: int, y: int)
    ensures Wrapped(Wrapped(x) + y) == Wrapped(x + y)
  {
    var k := (x + TWO_TO_THE_63) / TWO_TO_THE_64;
    assert Wrapped(x) == x - k * TWO_TO_THE_64;
    assert (x + y + TWO_TO_THE_63 - k * TWO_TO_THE_64) % TWO_TO_THE_64 == (x + y + TWO_TO_THE_63) % TWO_TO_THE_64;
  }
}
