/**
 Directory words as 64-bit masks. A node sets the bit of its rank, and the source asks of a
 word whether it is zero or a power of two; on sets of nodes that question is whether the
 set has at most one member, which is how the other modules ask it.
 */
module NodeBits {

  /** The test of the source, word for word. */
  predicate IsZeroOrPowerOf2(x: bv64) {
    x & (x - 1) == 0
  }

  /** Node `n` is listed in the word. */
  predicate Has(x: bv64, n: bv7)
    requires n < 64
  {
    (x >> n) & 1 == 1
  }

  lemma AtMostOneBit(x: bv64, m: bv7, n: bv7)
    requires m < 64 && n < 64 && IsZeroOrPowerOf2(x) && Has(x, m) && Has(x, n)
    ensures m == n
  {
  }

  lemma SomeBit(x: bv64) returns (n: bv7)
    requires x != 0
    ensures n < 64 && Has(x, n)
  {
    var y: bv64 := x;
    n := 0;
    if y & 0xFFFF_FFFF == 0 { y, n := y >> 32, n + 32; }
    if y & 0xFFFF == 0 { y, n := y >> 16, n + 16; }
    if y & 0xFF == 0 { y, n := y >> 8, n + 8; }
    if y & 0xF == 0 { y, n := y >> 4, n + 4; }
    if y & 0x3 == 0 { y, n := y >> 2, n + 2; }
    if y & 0x1 == 0 { y, n := y >> 1, n + 1; }
  }

  /** The word passes the test exactly when no two different nodes are listed in it. */
  lemma AtMostOneNode(x: bv64)
    ensures IsZeroOrPowerOf2(x) <==>
      forall m: bv7, n: bv7 :: m < 64 && n < 64 && Has(x, m) && Has(x, n) ==> m == n
  {
    if IsZeroOrPowerOf2(x) {
      forall m: bv7, n: bv7 | m < 64 && n < 64 && Has(x, m) && Has(x, n) ensures m == n {
        AtMostOneBit(x, m, n);
      }
    } else {
      var m := SomeBit(x & (x - 1));
      var n := SomeBit(x & !(x - 1));
      TwoBits(x, m, n);
    }
  }

  /** Clearing the lowest bit leaves only higher ones. */
  lemma TwoBits(x: bv64, m: bv7, n: bv7)
    requires m < 64 && n < 64 && Has(x & (x - 1), m) && Has(x & !(x - 1), n)
    ensures Has(x, m) && Has(x, n) && m != n
  {
  }
}
