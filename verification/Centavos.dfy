/** Amounts cross to OpenPay as binary64 pesos and come back as int64 centavos.
    A floating-point operation is its exact result followed by a rounding `fl`; all that
    is used of `fl` is the relative error bound of binary64 in the normal range. */
module Centavos {

  /** 2^-53, half a unit in the last place of a binary64 significand. */
  const UNIT_ROUNDOFF: real := 1.0 / 9007199254740992.0

  const TWO_51: int := 0x8_0000_0000_0000

  function Abs(x: real): real {
    if x >= 0.0 then x else -x
  }

  ghost predicate RoundsWithinHalfUlp(fl: real -> real) {
    forall x: real {:trigger fl(x)} :: x == 0.0 || 0.001 <= x <= 1_000_000_000_000_000_000.0
      ==> Abs(fl(x) - x) <= x * UNIT_ROUNDOFF
  }

  /** Go's math.Round: nearest integer, halves away from zero. */
  function Round(x: real): int {
    if x >= 0.0 then (x + 0.5).Floor else -((-x + 0.5).Floor)
  }

  /** floatToCentavos of the ingress handler. */
  function FloatToCentavos(fl: real -> real, pesos: real): int {
    Round(fl(pesos * 100.0))
  }

  /** The peso amount the services send: float64(centavos) / 100.0. */
  function CentavosToFloat(fl: real -> real, centavos: int): real {
    fl(centavos as real / 100.0)
  }

  /** Two relative errors of u compound to at most 2u + u*u. */
  lemma ErrorsCompound(n: real, y: real, z: real, u: real)
    requires n >= 0.0 && 0.0 <= u <= 0.5
    requires Abs(y - n / 100.0) <= n / 100.0 * u
    requires Abs(z - y * 100.0) <= y * 100.0 * u
    ensures Abs(z - n) <= n * (2.0 * u + u * u)
  {
    var w, d := y * 100.0, n * u;
    assert Abs(w - n) <= d;
    Scaled(w, n, d, u);
    Expanded(n, d, u);
    assert Abs(z - w) <= w * u;
    assert Abs(z - n) <= Abs(z - w) + Abs(w - n);
  }

  lemma Scaled(w: real, n: real, d: real, u: real)
    requires w <= n + d && u >= 0.0 && d == n * u
    ensures w * u <= d + d * u
  {
    assert (n + d) * u == n * u + d * u;
    assert (n + d - w) * u >= 0.0;
    assert (n + d - w) * u == (n + d) * u - w * u;
  }

  lemma Expanded(n: real, d: real, u: real)
    requires d == n * u
    ensures n * (2.0 * u + u * u) == d + d + d * u
  {
    assert n * (2.0 * u + u * u) == n * u + n * u + n * u * u;
  }

  lemma StaysUnderHalf(n: int)
    requires 0 <= n < TWO_51
    ensures n as real * (2.0 * UNIT_ROUNDOFF + UNIT_ROUNDOFF * UNIT_ROUNDOFF) < 0.5
  {
    assert n as real <= (TWO_51 - 1) as real;
    var e := 2.0 * UNIT_ROUNDOFF + UNIT_ROUNDOFF * UNIT_ROUNDOFF;
    assert n as real * e <= (TWO_51 - 1) as real * e;
  }

  /** Every centavo amount below 2^51 survives the trip through float pesos. */
  lemma CentavosSurvive(fl: real -> real, n: int)
    requires RoundsWithinHalfUlp(fl)
    requires 0 <= n < TWO_51
    ensures FloatToCentavos(fl, CentavosToFloat(fl, n)) == n
  {
    var x := n as real / 100.0;
    var y := fl(x);
    var z := fl(y * 100.0);
    assert Abs(y - x) <= x * UNIT_ROUNDOFF;
    if n == 0 {
      assert y == 0.0;
    } else {
      assert x >= 0.01;
      assert x * UNIT_ROUNDOFF <= x * 0.5;
      assert y >= 0.005 && y <= x * 1.5;
    }
    assert Abs(z - y * 100.0) <= y * 100.0 * UNIT_ROUNDOFF;
    ErrorsCompound(n as real, y, z, UNIT_ROUNDOFF);
    StaysUnderHalf(n);
    assert Abs(z - n as real) < 0.5;
  }

  /** The error bound alone gives no more: at 2^51 some function within it is one centavo off. That
      function is no binary64 rounding, so this limits the argument above and not the program. */
  lemma BoundIsTight()
    ensures exists fl: real -> real ::
      RoundsWithinHalfUlp(fl) && FloatToCentavos(fl, CentavosToFloat(fl, TWO_51)) == TWO_51 + 1
  {
    var fl: real -> real := (x: real) => x * (1.0 + UNIT_ROUNDOFF);
    assert RoundsWithinHalfUlp(fl);
    assert FloatToCentavos(fl, CentavosToFloat(fl, TWO_51)) == TWO_51 + 1;
  }
}
