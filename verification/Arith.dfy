/** The few facts about multiplication and division that the placement modules need. */
module Arith {

  lemma MulMono(a: nat, b: nat, d: nat)
    requires a <= b
    ensures a * d <= b * d
  {
    assert b * d == a * d + (b - a) * d;
  }

  lemma MulAssoc(a: nat, b: nat, c: nat)
    ensures (a * b) * c == a * (b * c)
  {
  }

  lemma MulAdd(a: nat, b: nat, d: nat)
    ensures (a + b) * d == a * d + b * d
  {
  }

  /** A quotient and remainder are determined by what they add up to. */
  lemma DivModUnique(x: nat, d: nat, q: nat, r: nat)
    requires x == q * d + r && r < d
    ensures x / d == q && x % d == r
  {
    var q', r' := x / d, x % d;
    assert x == q' * d + r';
    if q < q' {
      MulMono(q + 1, q', d);
    } else if q' < q {
      MulMono(q' + 1, q, d);
    }
  }

  lemma DivMod(x: nat, d: nat)
    requires d > 0
    ensures x == (x / d) * d + x % d && x % d < d
  {
  }

  /** Byte w of page y of block b, for pages of d bytes and blocks of e pages. */
  lemma BlockAndPage(x: nat, d: nat, e: nat, b: nat, y: nat, w: nat)
    requires x == (b * e + y) * d + w && y < e && w < d
    ensures e * d > 0
    ensures x / d == b * e + y && x % d == w
    ensures x / (e * d) == b && x % (e * d) == y * d + w
    ensures ((b * e + y) * d) / (e * d) == b && ((b * e + y) * d) % (e * d) == y * d
  {
    var block := e * d;
    MulAdd(b * e, y, d);
    MulAssoc(b, e, d);
    assert x == b * block + (y * d + w);
    MulMono(y + 1, e, d);
    MulAdd(y, 1, d);
    assert y * d + w < block;
    DivModUnique(x, d, b * e + y, w);
    DivModUnique(x, block, b, y * d + w);
    DivModUnique((b * e + y) * d, block, b, y * d);
  }

  /** Rounding down to a page keeps the block, and the rest of the offset in the block is the drift. */
  lemma NestedDivision(x: nat, d: nat, e: nat)
    requires d > 0 && e > 0
    ensures e * d > 0
    ensures (x / d * d) / (e * d) == x / (e * d)
    ensures (x / d * d) % (e * d) + x % d == x % (e * d)
  {
    DivMod(x, d);
    DivMod(x / d, e);
    BlockAndPage(x, d, e, x / d / e, x / d % e, x % d);
  }
}
