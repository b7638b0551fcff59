/** Go's int64 arithmetic: wrap-around on overflow and division truncated toward zero. */
module Int64 {

  const TWO_63: int := 0x8000_0000_0000_0000
  const TWO_64: int := 0x1_0000_0000_0000_0000

  predicate Fits(x: int) {
    -TWO_63 <= x < TWO_63
  }

  /** The int64 congruent to x modulo 2^64. */
  function Wrap(x: int): (r: int)
    ensures Fits(r)
    ensures exists k: int :: r == x - k * TWO_64
    ensures r == x <==> Fits(x)
  {
    var r := (x + TWO_63) % TWO_64 - TWO_63;
    assert r == x - ((x + TWO_63) / TWO_64) * TWO_64;
    r
  }

  /** Go's `/` on integers. */
  function TruncDiv(a: int, b: int): (q: int)
    requires b > 0
    ensures a >= 0 ==> q * b <= a < (q + 1) * b
    ensures a < 0 ==> (q - 1) * b < a <= q * b
  {
    if a >= 0 then a / b else -((-a) / b)
  }

  /** Two int64 values that differ by a multiple of 2^64 are the same value. */
  lemma CongruentFitsEqual(x: int, y: int, k: int)
    requires Fits(x) && Fits(y) && x == y - k * TWO_64
    ensures x == y
  {
    if k != 0 {
      MultipleIsFar(k);
      assert false;
    }
  }

  lemma MultipleIsFar(k: int)
    requires k != 0
    ensures k * TWO_64 >= TWO_64 || k * TWO_64 <= -TWO_64
  {
  }

  /** Wrapping an operand first does not change a wrapped sum. */
  lemma WrapAbsorbs(x: int, y: int)
    ensures Wrap(Wrap(x) + y) == Wrap(x + y)
  {
    var k1: int :| Wrap(x) == x - k1 * TWO_64;
    var k2: int :| Wrap(Wrap(x) + y) == Wrap(x) + y - k2 * TWO_64;
    var k3: int :| Wrap(x + y) == x + y - k3 * TWO_64;
    CongruentFitsEqual(Wrap(Wrap(x) + y), Wrap(x + y), k1 + k2 - k3);
  }
}
