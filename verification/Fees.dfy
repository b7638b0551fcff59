/** The three-way fee split of a settled charge (internal/domain/payment.go). */
module Fees {
  import opened Int64

  /** The fee type is a database string; every value but "inclusive" takes the default branch. */
  datatype FeeType = FeeTypeAdded | FeeTypeInclusive | FeeTypeOther(name: string)

  datatype PlatformFeeConfig = PlatformFeeConfig(percentageBPS: int, fixedCentavos: int)

  datatype PaymentFees = PaymentFees(gross: int, openpayFee: int, platformFee: int, net: int)

  function PercentageFee(gross: int, bps: int): int {
    TruncDiv(gross * bps, 10_000)
  }

  function ComputedFee(gross: int, fee: PlatformFeeConfig): int {
    PercentageFee(gross, fee.percentageBPS) + fee.fixedCentavos
  }

  /** n ten-thousandths of a product, the fraction cut off toward zero. */
  predicate IsPercentage(n: int, product: int) {
    if product >= 0 then 10_000 * n <= product < 10_000 * (n + 1) else 10_000 * (n - 1) < product <= 10_000 * n
  }

  /** Who gets what of the gross. An inclusive tenant keeps the gross less the constant, and the platform
      the constant less OpenPay's fee; any other tenant pays the constant to the platform and OpenPay's
      fee on top. The constant is the percentage and the fixed part. */
  predicate Shares(f: PaymentFees, fee: PlatformFeeConfig, feeType: FeeType) {
    if feeType.FeeTypeInclusive? then
      && IsPercentage(f.gross - f.net - fee.fixedCentavos, f.gross * fee.percentageBPS)
      && f.platformFee == f.gross - f.net - f.openpayFee
    else
      && IsPercentage(f.platformFee - fee.fixedCentavos, f.gross * fee.percentageBPS)
      && f.net == f.gross - f.platformFee - f.openpayFee
  }

  /** The split over unbounded integers: nothing is created or lost, and each side gets its share. */
  function NetAmountForCharge(gross: int, openpayFee: int, fee: PlatformFeeConfig, feeType: FeeType): (r: PaymentFees)
    ensures r.gross == gross && r.openpayFee == openpayFee
    ensures r.openpayFee + r.platformFee + r.net == r.gross
    ensures Shares(r, fee, feeType)
  {
    var computed := ComputedFee(gross, fee);
    if feeType.FeeTypeInclusive? then
      PaymentFees(gross, openpayFee, computed - openpayFee, gross - computed)
    else
      PaymentFees(gross, openpayFee, computed, gross - openpayFee - computed)
  }

  /** The same split as the machine computes it: every product, sum and difference wraps. */
  function NetAmountForCharge64(gross: int, openpayFee: int, fee: PlatformFeeConfig, feeType: FeeType): PaymentFees {
    var computed := Wrap(TruncDiv(Wrap(gross * fee.percentageBPS), 10_000) + fee.fixedCentavos);
    if feeType.FeeTypeInclusive? then
      PaymentFees(gross, openpayFee, Wrap(computed - openpayFee), Wrap(gross - computed))
    else
      PaymentFees(gross, openpayFee, computed, Wrap(Wrap(gross - openpayFee) - computed))
  }

  /** The machine split is the exact split whenever the product and both results
      are representable: a sum in between may wrap, and then it wraps back. */
  lemma SplitIsExact(gross: int, openpayFee: int, fee: PlatformFeeConfig, feeType: FeeType)
    requires Fits(gross * fee.percentageBPS)
    requires Fits(NetAmountForCharge(gross, openpayFee, fee, feeType).platformFee)
    requires Fits(NetAmountForCharge(gross, openpayFee, fee, feeType).net)
    ensures NetAmountForCharge64(gross, openpayFee, fee, feeType) == NetAmountForCharge(gross, openpayFee, fee, feeType)
  {
    var computed := ComputedFee(gross, fee);
    WrapAbsorbs(computed, -openpayFee);
    WrapAbsorbs(gross - openpayFee, -computed);
    WrapOperandNegated(gross, computed);
  }

  lemma WrapOperandNegated(x: int, y: int)
    ensures Wrap(x - Wrap(y)) == Wrap(x - y)
  {
    var k1: int :| Wrap(y) == y - k1 * TWO_64;
    var k2: int :| Wrap(x - Wrap(y)) == x - Wrap(y) - k2 * TWO_64;
    var k3: int :| Wrap(x - y) == x - y - k3 * TWO_64;
    CongruentFitsEqual(Wrap(x - Wrap(y)), Wrap(x - y), k2 - k1 - k3);
  }

  /** The shares leave no choice. */
  lemma SharesDecide(f: PaymentFees, g: PaymentFees, fee: PlatformFeeConfig, feeType: FeeType)
    requires f.gross == g.gross && f.openpayFee == g.openpayFee && Shares(f, fee, feeType) && Shares(g, fee, feeType)
    ensures f == g
  {
  }

  // ── Fee rounding over batches ──

  function Sum(xs: seq<int>): int {
    if xs == [] then 0 else xs[0] + Sum(xs[1..])
  }

  function SumOfPercentageFees(grosses: seq<int>, bps: int): int {
    if grosses == [] then 0 else PercentageFee(grosses[0], bps) + SumOfPercentageFees(grosses[1..], bps)
  }

  lemma FloorIsSuperadditive(a: int, b: int)
    requires a >= 0 && b >= 0
    ensures TruncDiv(a, 10_000) + TruncDiv(b, 10_000) <= TruncDiv(a + b, 10_000)
    ensures TruncDiv(a + b, 10_000) <= TruncDiv(a, 10_000) + TruncDiv(b, 10_000) + 1
  {
  }

  lemma FeeOfSum(g: int, h: int, bps: int)
    requires g >= 0 && h >= 0 && bps >= 0
    ensures 0 <= PercentageFee(g + h, bps) - PercentageFee(g, bps) - PercentageFee(h, bps) <= 1
  {
    assert g * bps >= 0 && h * bps >= 0;
    FloorIsSuperadditive(g * bps, h * bps);
    assert (g + h) * bps == g * bps + h * bps;
  }

  /** Charging a batch as one total costs the tenant between 0 and n - 1 centavos more
      percentage fee than charging its n members one by one. */
  lemma {:induction false} BatchRounding(grosses: seq<int>, bps: int)
    requires |grosses| >= 1 && bps >= 0
    requires forall i :: 0 <= i < |grosses| ==> grosses[i] >= 0
    ensures Sum(grosses) >= 0
    ensures 0 <= PercentageFee(Sum(grosses), bps) - SumOfPercentageFees(grosses, bps) <= |grosses| - 1
  {
    var rest := grosses[1..];
    if rest == [] {
      assert Sum(grosses) == grosses[0];
    } else {
      BatchRounding(rest, bps);
      FeeOfSum(grosses[0], Sum(rest), bps);
    }
  }

  // ── The row CHECKs of migrations/003 ──

  /** CHECKs of the `payments` table; a settlement that violates one is rejected whole. */
  predicate PassesChecks(f: PaymentFees) {
    f.gross >= 0 && f.openpayFee >= 0 && f.platformFee >= 0 && f.net >= 0
  }

  /** The fees fit in the gross (added), or the constant lies between OpenPay's fee and the gross
      (inclusive), nothing being negative. */
  predicate FeesFit(gross: int, openpayFee: int, fee: PlatformFeeConfig, feeType: FeeType) {
    && 0 <= openpayFee
    && (if feeType.FeeTypeInclusive? then openpayFee <= ComputedFee(gross, fee) <= gross
        else 0 <= ComputedFee(gross, fee) && openpayFee + ComputedFee(gross, fee) <= gross)
  }

  /** A settlement fits the row CHECKs exactly when the fees fit, for any amounts and any
      configuration. */
  lemma SettlementPassesIff(gross: int, openpayFee: int, fee: PlatformFeeConfig, feeType: FeeType)
    ensures PassesChecks(NetAmountForCharge(gross, openpayFee, fee, feeType))
            <==> FeesFit(gross, openpayFee, fee, feeType)
  {
  }
}
