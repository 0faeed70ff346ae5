/**
  Fee arithmetic: the EIP-1559 base fee and the EIP-4844 blob fee and excess blob gas.

  Amounts are mathematical integers; the base fee and the two fake exponentials, whose
  intermediate values grow, have their 64-bit overflow as an explicit outcome.
 */
module FeeMarket {
  import opened Prelude

  const ELASTICITY_MULTIPLIER: nat := 2
  const BASE_FEE_MAX_CHANGE_DENOMINATOR: nat := 8
  const GAS_LIMIT_ADJUSTMENT_FACTOR: nat := 1024
  const GAS_LIMIT_MINIMUM: nat := 5000
  const INITIAL_BASE_FEE: nat := 1_000_000_000
  const TARGET_BLOB_GAS_PER_BLOCK: nat := 393216
  const MIN_BASE_FEE_PER_BLOB_GAS: nat := 1
  const BLOB_BASE_FEE_UPDATE_FRACTION: nat := 3338477

  // ---------------------------------------------------------------- division facts

  lemma DivBounds(a: nat, b: nat)
    requires b > 0
    ensures a / b * b <= a < a / b * b + b
    ensures a / b >= 0
  {
  }

  lemma DivIsAtLeast(a: nat, b: nat, q: nat)
    requires b > 0 && q * b <= a
    ensures q <= a / b
  {
    if a / b < q {
      assert (a / b + 1) * b <= q * b;
      DivBounds(a, b);
      assert false;
    }
  }

  lemma DivIsBelow(a: nat, b: nat, q: nat)
    requires b > 0 && a < q * b
    ensures a / b < q
  {
    if q <= a / b {
      assert q * b <= a / b * b;
      DivBounds(a, b);
      assert false;
    }
  }

  lemma DivMonotone(a: nat, a': nat, b: nat)
    requires b > 0 && a <= a'
    ensures a / b <= a' / b
  {
    DivBounds(a, b);
    DivIsAtLeast(a', b, a / b);
  }

  lemma MulMonotone(a: nat, b: nat, b': nat)
    requires b <= b'
    ensures a * b <= a * b'
  {
  }

  lemma MulSuccessor(a: nat, b: nat)
    ensures a * (b + 1) == a * b + a
  {
  }

  // ---------------------------------------------------------------- base fee per gas

  predicate CheckGasLimit(gasLimit: nat, parentGasLimit: nat) {
    var maxAdjustment := parentGasLimit / GAS_LIMIT_ADJUSTMENT_FACTOR;
    && gasLimit < parentGasLimit + maxAdjustment
    && gasLimit > parentGasLimit - maxAdjustment
    && gasLimit >= GAS_LIMIT_MINIMUM
  }

  /** How far a base fee moves for a given distance from the gas target. */
  function FeeDelta(baseFee: nat, gasDelta: nat, target: nat): nat
    requires target > 0
  {
    baseFee * gasDelta / target / BASE_FEE_MAX_CHANGE_DENOMINATOR
  }

  /** The step up past the target is never zero. */
  function FeeRise(baseFee: nat, gasDelta: nat, target: nat): nat
    requires target > 0
  {
    Max(FeeDelta(baseFee, gasDelta, target), 1)
  }

  function Distance(a: nat, b: nat): nat {
    if a <= b then b - a else a - b
  }

  datatype BaseFeeError = GasLimitInvalid | FeeOverflow

  predicate LimitFits(parentGasLimit: nat) {
    parentGasLimit + parentGasLimit / GAS_LIMIT_ADJUSTMENT_FACTOR < U64_BOUND
  }

  /** The product of fee and gas, and the raised fee, fit in 64 bits. */
  predicate FeeFits(parentGasLimit: nat, parentGasUsed: nat, parentBaseFee: nat)
    requires parentGasLimit >= ELASTICITY_MULTIPLIER
  {
    var target := parentGasLimit / ELASTICITY_MULTIPLIER;
    && parentBaseFee * Distance(parentGasUsed, target) < U64_BOUND
    && (parentGasUsed > target ==> parentBaseFee + FeeRise(parentBaseFee, parentGasUsed - target, target) < U64_BOUND)
  }

  function CalculateBaseFeePerGas(gasLimit: nat, parentGasLimit: nat, parentGasUsed: nat,
                                  parentBaseFee: nat): (r: Result<nat, BaseFeeError>)
    ensures r.Ok? ==> CheckGasLimit(gasLimit, parentGasLimit)
  {
    if !LimitFits(parentGasLimit) then Err(FeeOverflow)
    else if !CheckGasLimit(gasLimit, parentGasLimit) then Err(GasLimitInvalid)
    else
      var target := parentGasLimit / ELASTICITY_MULTIPLIER;
      if parentGasUsed == target then Ok(parentBaseFee)
      else if parentBaseFee * Distance(parentGasUsed, target) >= U64_BOUND then Err(FeeOverflow)
      else if parentGasUsed > target then
        var raised := parentBaseFee + FeeRise(parentBaseFee, parentGasUsed - target, target);
        if raised >= U64_BOUND then Err(FeeOverflow) else Ok(raised)
      else
        FallIsSmall(parentBaseFee, target - parentGasUsed, target);
        Ok(parentBaseFee - FeeDelta(parentBaseFee, target - parentGasUsed, target))
  }

  /** A 64-bit parent that passes the limit check has a base fee exactly unless product or sum overflows. */
  lemma FeeOverflowsExactly(gasLimit: nat, parentGasLimit: nat, used: nat, baseFee: nat)
    requires LimitFits(parentGasLimit) && CheckGasLimit(gasLimit, parentGasLimit) && baseFee < U64_BOUND
    ensures CalculateBaseFeePerGas(gasLimit, parentGasLimit, used, baseFee).Ok? <==>
            FeeFits(parentGasLimit, used, baseFee)
    ensures CalculateBaseFeePerGas(gasLimit, parentGasLimit, used, baseFee) != Err(GasLimitInvalid)
  {
    var target := parentGasLimit / ELASTICITY_MULTIPLIER;
    if used == target {
      assert baseFee * 0 == 0;
    }
  }

  /** No amount of gas used overflows exactly when the full block does not. */
  lemma FullBlockDecides(parentGasLimit: nat, baseFee: nat)
    requires parentGasLimit >= ELASTICITY_MULTIPLIER && baseFee < U64_BOUND
    ensures (forall used :: 0 <= used <= parentGasLimit ==> FeeFits(parentGasLimit, used, baseFee)) <==>
            FeeFits(parentGasLimit, parentGasLimit, baseFee)
  {
    if FeeFits(parentGasLimit, parentGasLimit, baseFee) {
      forall used | 0 <= used <= parentGasLimit ensures FeeFits(parentGasLimit, used, baseFee) {
        FullBlockIsWorst(parentGasLimit, used, baseFee);
      }
    }
  }

  lemma FullBlockIsWorst(parentGasLimit: nat, used: nat, baseFee: nat)
    requires parentGasLimit >= ELASTICITY_MULTIPLIER && used <= parentGasLimit
    requires FeeFits(parentGasLimit, parentGasLimit, baseFee)
    ensures FeeFits(parentGasLimit, used, baseFee)
  {
    var target := parentGasLimit / ELASTICITY_MULTIPLIER;
    MulMonotone(baseFee, Distance(used, target), parentGasLimit - target);
    if used > target {
      FeeDeltaMonotone(baseFee, used - target, parentGasLimit - target, target);
    }
  }

  /** The comment above the divisions: a passing gas limit check rules out a zero divisor. */
  lemma CheckedLimitHasTarget(gasLimit: nat, parentGasLimit: nat)
    requires CheckGasLimit(gasLimit, parentGasLimit)
    ensures parentGasLimit / ELASTICITY_MULTIPLIER >= 2 * 1024
  {
  }

  lemma FallIsSmall(baseFee: nat, gasDelta: nat, target: nat)
    requires target > 0 && gasDelta <= target
    ensures FeeDelta(baseFee, gasDelta, target) <= baseFee / 8
  {
    MulMonotone(baseFee, gasDelta, target);
    DivMonotone(baseFee * gasDelta, baseFee * target, target);
    assert baseFee * target / target == baseFee;
  }

  lemma FeeDeltaMonotone(baseFee: nat, d: nat, d': nat, target: nat)
    requires target > 0 && d <= d'
    ensures FeeDelta(baseFee, d, target) <= FeeDelta(baseFee, d', target)
  {
    MulMonotone(baseFee, d, d');
    DivMonotone(baseFee * d, baseFee * d', target);
  }

  /** More parent gas never lowers the fee, as long as neither computation overflows. */
  lemma BaseFeeMonotone(gasLimit: nat, parentGasLimit: nat, used: nat, used': nat, baseFee: nat)
    requires used <= used'
    ensures var (fee, fee') := (CalculateBaseFeePerGas(gasLimit, parentGasLimit, used, baseFee),
                                CalculateBaseFeePerGas(gasLimit, parentGasLimit, used', baseFee));
            fee.Ok? && fee'.Ok? ==> fee.value <= fee'.value
  {
    var target := parentGasLimit / ELASTICITY_MULTIPLIER;
    if 0 < target < used {
      FeeDeltaMonotone(baseFee, used - target, used' - target, target);
    } else if used' < target {
      FeeDeltaMonotone(baseFee, target - used', target - used, target);
    }
  }

  /** Both fees are computed, and the one for more gas is not lower. */
  predicate InStep(gasLimit: nat, parentGasLimit: nat, used: nat, used': nat, baseFee: nat) {
    var fee := CalculateBaseFeePerGas(gasLimit, parentGasLimit, used, baseFee);
    var fee' := CalculateBaseFeePerGas(gasLimit, parentGasLimit, used', baseFee);
    fee.Ok? && fee'.Ok? && fee.value <= fee'.value
  }

  /** Over all amounts a parent block can use, the fee exists and is monotone exactly if the full block's fits. */
  lemma MonotoneIffFullBlockFits(gasLimit: nat, parentGasLimit: nat, baseFee: nat)
    requires LimitFits(parentGasLimit) && CheckGasLimit(gasLimit, parentGasLimit) && baseFee < U64_BOUND
    ensures (forall used: nat, used': nat :: used <= used' <= parentGasLimit ==>
               InStep(gasLimit, parentGasLimit, used, used', baseFee)) <==>
            FeeFits(parentGasLimit, parentGasLimit, baseFee)
  {
    if FeeFits(parentGasLimit, parentGasLimit, baseFee) {
      forall used: nat, used': nat | used <= used' <= parentGasLimit
        ensures InStep(gasLimit, parentGasLimit, used, used', baseFee)
      {
        FullBlockIsWorst(parentGasLimit, used, baseFee);
        FullBlockIsWorst(parentGasLimit, used', baseFee);
        FeeOverflowsExactly(gasLimit, parentGasLimit, used, baseFee);
        FeeOverflowsExactly(gasLimit, parentGasLimit, used', baseFee);
        BaseFeeMonotone(gasLimit, parentGasLimit, used, used', baseFee);
      }
    } else {
      FeeOverflowsExactly(gasLimit, parentGasLimit, parentGasLimit, baseFee);
      assert !InStep(gasLimit, parentGasLimit, parentGasLimit, parentGasLimit, baseFee);
    }
  }

  lemma BaseFeeFallsByAtMostOneEighth(gasLimit: nat, parentGasLimit: nat, used: nat, baseFee: nat)
    requires CalculateBaseFeePerGas(gasLimit, parentGasLimit, used, baseFee).Ok?
    ensures CalculateBaseFeePerGas(gasLimit, parentGasLimit, used, baseFee).value >= baseFee - baseFee / 8
  {
    var target := parentGasLimit / ELASTICITY_MULTIPLIER;
    if used < target {
      FallIsSmall(baseFee, target - used, target);
    }
  }

  /** One gas unit past twice the target: the quotient picks up an extra `baseFee / target`. */
  lemma OddLimitQuotient(baseFee: nat, target: nat)
    requires target > 0
    ensures baseFee * (target + 1) / target == baseFee + baseFee / target
  {
    var q := baseFee / target;
    DivBounds(baseFee, target);
    assert baseFee * (target + 1) == baseFee * target + baseFee;
    DivIsAtLeast(baseFee * (target + 1), target, baseFee + q);
    DivIsBelow(baseFee * (target + 1), target, baseFee + q + 1);
  }

  /**
    The rise is at most max(1, one eighth) exactly when the parent did not use the odd gas unit
    that integer halving of its limit leaves above twice the target, or that unit is too small
    to carry into the next eighth.
   */
  lemma BaseFeeRiseBound(gasLimit: nat, parentGasLimit: nat, used: nat, baseFee: nat)
    requires CalculateBaseFeePerGas(gasLimit, parentGasLimit, used, baseFee).Ok? && used <= parentGasLimit
    ensures var target := parentGasLimit / ELASTICITY_MULTIPLIER;
            CalculateBaseFeePerGas(gasLimit, parentGasLimit, used, baseFee).value <= baseFee + Max(1, baseFee / 8)
            <==> used <= 2 * target || baseFee % 8 + baseFee / target < 8
  {
    var target := parentGasLimit / ELASTICITY_MULTIPLIER;
    if target < used <= 2 * target {
      FallIsSmall(baseFee, used - target, target);
    } else if 2 * target < used {
      OddLimitQuotient(baseFee, target);
      var carry := baseFee / target;
      assert (baseFee + carry) / 8 <= baseFee / 8 <==> baseFee % 8 + carry < 8;
      if baseFee < 8 {
        DivIsBelow(baseFee, target, 1);
      }
    }
  }

  lemma EvenLimitRise(gasLimit: nat, parentGasLimit: nat, used: nat, baseFee: nat)
    requires CalculateBaseFeePerGas(gasLimit, parentGasLimit, used, baseFee).Ok? && used <= parentGasLimit
    requires parentGasLimit % 2 == 0
    ensures CalculateBaseFeePerGas(gasLimit, parentGasLimit, used, baseFee).value <= baseFee + Max(1, baseFee / 8)
  {
    BaseFeeRiseBound(gasLimit, parentGasLimit, used, baseFee);
  }

  lemma OddLimitCanRiseMore()
    ensures CalculateBaseFeePerGas(5001, 5001, 5001, 20000) == Ok(22501)
    ensures 22501 > 20000 + Max(1, 20000 / 8)
  {
  }

  // ---------------------------------------------------------------- base fee with wrapping arithmetic

  function Wrap(n: nat): (r: nat)
    ensures r <= n && r < U64_BOUND
    ensures n < U64_BOUND ==> r == n
  {
    n % U64_BOUND
  }

  function WrappedDelta(baseFee: nat, gasDelta: nat, target: nat): nat
    requires target > 0
  {
    Wrap(baseFee * gasDelta) / target / BASE_FEE_MAX_CHANGE_DENOMINATOR
  }

  /** A wrapped product is no larger, and small against 64 bits. */
  lemma WrappedDeltaIsSmall(baseFee: nat, gasDelta: nat, target: nat)
    requires target > 0
    ensures WrappedDelta(baseFee, gasDelta, target) <= FeeDelta(baseFee, gasDelta, target)
    ensures baseFee * gasDelta < U64_BOUND ==>
              WrappedDelta(baseFee, gasDelta, target) == FeeDelta(baseFee, gasDelta, target)
    ensures target >= 2048 ==> WrappedDelta(baseFee, gasDelta, target) < U64_BOUND / 16384
  {
    var wrapped := Wrap(baseFee * gasDelta);
    DivMonotone(wrapped, baseFee * gasDelta, target);
    if target >= 2048 {
      DivBounds(wrapped, target);
      MulMonotone(wrapped / target, 2048, target);
      assert wrapped / target < U64_BOUND / 2048;
    }
  }

  /** The base fee in a build whose products and sums wrap around instead of failing. */
  function WrappedFee(parentGasLimit: nat, used: nat, baseFee: nat): nat
    requires parentGasLimit >= ELASTICITY_MULTIPLIER
  {
    var target := parentGasLimit / ELASTICITY_MULTIPLIER;
    if used == target then baseFee
    else if used > target then Wrap(baseFee + Max(WrappedDelta(baseFee, used - target, target), 1))
    else
      WrappedDeltaIsSmall(baseFee, target - used, target);
      FallIsSmall(baseFee, target - used, target);
      baseFee - WrappedDelta(baseFee, target - used, target)
  }

  /** It is the same wherever nothing overflows. */
  lemma WrappedAgrees(gasLimit: nat, parentGasLimit: nat, used: nat, baseFee: nat)
    requires CalculateBaseFeePerGas(gasLimit, parentGasLimit, used, baseFee).Ok?
    ensures WrappedFee(parentGasLimit, used, baseFee) ==
            CalculateBaseFeePerGas(gasLimit, parentGasLimit, used, baseFee).value
  {
    var target := parentGasLimit / ELASTICITY_MULTIPLIER;
    WrappedDeltaIsSmall(baseFee, Distance(used, target), target);
  }

  /** The fee still falls by at most one eighth. */
  lemma WrappedFallIsSmall(parentGasLimit: nat, used: nat, baseFee: nat)
    requires parentGasLimit >= ELASTICITY_MULTIPLIER && used <= parentGasLimit / ELASTICITY_MULTIPLIER
    ensures baseFee - baseFee / 8 <= WrappedFee(parentGasLimit, used, baseFee) <= baseFee
  {
    var target := parentGasLimit / ELASTICITY_MULTIPLIER;
    WrappedDeltaIsSmall(baseFee, target - used, target);
    FallIsSmall(baseFee, target - used, target);
  }

  /** Past the target it still rises, unless the fee is so close to 64 bits that the sum wraps. */
  lemma WrappedRise(parentGasLimit: nat, used: nat, baseFee: nat)
    requires parentGasLimit >= 5000 && used > parentGasLimit / ELASTICITY_MULTIPLIER
    requires baseFee < U64_BOUND - U64_BOUND / 16384
    ensures baseFee < WrappedFee(parentGasLimit, used, baseFee)
  {
    var target := parentGasLimit / ELASTICITY_MULTIPLIER;
    WrappedDeltaIsSmall(baseFee, used - target, target);
  }

  /** So the floor of 7 survives wrapping products. */
  lemma WrappedFloor(parentGasLimit: nat, used: nat, baseFee: nat)
    requires parentGasLimit >= 5000 && 7 <= baseFee < U64_BOUND - U64_BOUND / 16384
    ensures WrappedFee(parentGasLimit, used, baseFee) >= 7
  {
    if used > parentGasLimit / ELASTICITY_MULTIPLIER {
      WrappedRise(parentGasLimit, used, baseFee);
    } else {
      WrappedFallIsSmall(parentGasLimit, used, baseFee);
    }
  }

  /** Monotonicity does not: at 1300 gwei a full block of 30M gas gets a lower fee than one of 29M. */
  lemma WrappingIsNotMonotone()
    ensures var limit, fee: nat := 30_000_000, 1_300_000_000_000;
            && CalculateBaseFeePerGas(limit, limit, 29_000_000, fee).Ok?
            && CalculateBaseFeePerGas(limit, limit, 30_000_000, fee) == Err(FeeOverflow)
            && WrappedFee(limit, 30_000_000, fee) < WrappedFee(limit, 29_000_000, fee)
  {
  }

  // ---------------------------------------------------------------- fake exponential

  /** The next term of the series; the divisor grows by the denominator at every step. */
  function NextTerm(accum: nat, numerator: nat, divisor: nat): nat
    requires divisor > 0
  {
    accum * numerator / divisor
  }

  /** How many growth steps are left before a term can only shrink. */
  function Growth(divisor: nat, numerator: nat): nat {
    if divisor <= numerator then numerator - divisor + 1 else 0
  }

  lemma TermShrinks(accum: nat, numerator: nat, divisor: nat)
    requires accum > 0 && numerator < divisor
    ensures NextTerm(accum, numerator, divisor) < accum
  {
    DivIsBelow(accum * numerator, divisor, accum);
  }

  /** `denominator * i` as the repeated addition the proofs follow. */
  ghost function Divisor(denominator: nat, i: nat): nat {
    if i == 0 then 0 else Divisor(denominator, i - 1) + denominator
  }

  lemma {:induction false} DivisorIsProduct(denominator: nat, i: nat)
    ensures Divisor(denominator, i) == denominator * i
  {
    if i > 0 {
      DivisorIsProduct(denominator, i - 1);
      MulSuccessor(denominator, i - 1);
    }
  }

  method Multiply(denominator: nat, i: nat) returns (divisor: nat)
    ensures divisor == Divisor(denominator, i)
  {
    DivisorIsProduct(denominator, i);
    divisor := denominator * i;
  }

  /** The sum of the series terms from `accum` on, until one rounds down to zero. */
  function TermSum(accum: nat, numerator: nat, divisor: nat, denominator: nat): nat
    requires divisor > 0 && denominator > 0
    decreases Growth(divisor, numerator), accum
  {
    if accum == 0 then 0
    else
      assert numerator < divisor ==> NextTerm(accum, numerator, divisor) < accum by {
        if numerator < divisor { TermShrinks(accum, numerator, divisor); }
      }
      accum + TermSum(NextTerm(accum, numerator, divisor), numerator, divisor + denominator, denominator)
  }

  /** What the loop computes: `factor * e ** (numerator / denominator)` in integers. */
  function FakeExponentialValue(factor: nat, numerator: nat, denominator: nat): nat
    requires denominator > 0
  {
    TermSum(factor * denominator, numerator, denominator, denominator) / denominator
  }

  lemma {:induction false} TermSumMonotone(accum: nat, accum': nat, numerator: nat, numerator': nat, divisor: nat,
                                           denominator: nat)
    requires divisor > 0 && denominator > 0 && accum <= accum' && numerator <= numerator'
    ensures TermSum(accum, numerator, divisor, denominator) <= TermSum(accum', numerator', divisor, denominator)
    decreases Growth(divisor, numerator'), accum'
  {
    if accum > 0 {
      if numerator' < divisor { TermShrinks(accum', numerator', divisor); }
      MulMonotone(accum, numerator, numerator');
      MulMonotone(numerator', accum, accum');
      DivMonotone(accum * numerator, accum' * numerator', divisor);
      TermSumMonotone(
        NextTerm(accum, numerator, divisor), NextTerm(accum', numerator', divisor),
        numerator, numerator', divisor + denominator, denominator);
    }
  }

  /** The blob fee never falls when the excess blob gas grows. */
  lemma FakeExponentialMonotone(factor: nat, numerator: nat, numerator': nat, denominator: nat)
    requires denominator > 0 && numerator <= numerator'
    ensures FakeExponentialValue(factor, numerator, denominator) <=
            FakeExponentialValue(factor, numerator', denominator)
  {
    var first := factor * denominator;
    TermSumMonotone(first, first, numerator, numerator', denominator, denominator);
    DivMonotone(TermSum(first, numerator, denominator, denominator),
                TermSum(first, numerator', denominator, denominator), denominator);
  }

  lemma MulDiv(a: nat, b: nat)
    requires b > 0
    ensures a * b / b == a
  {
    DivIsAtLeast(a * b, b, a);
    assert a * b < (a + 1) * b;
    DivIsBelow(a * b, b, a + 1);
  }

  lemma FakeExponentialAtZero(factor: nat, denominator: nat)
    requires denominator > 0
    ensures FakeExponentialValue(factor, 0, denominator) == factor
  {
    var first := factor * denominator;
    assert NextTerm(first, 0, denominator) == 0;
    assert TermSum(first, 0, denominator, denominator) == first;
    MulDiv(factor, denominator);
  }

  /** At least the factor, and at least the exact first-order part of the exponential. */
  lemma FakeExponentialAtLeastLinear(factor: nat, numerator: nat, denominator: nat)
    requires denominator > 0
    ensures FakeExponentialValue(factor, numerator, denominator) >= factor
    ensures FakeExponentialValue(factor, numerator, denominator) >= factor * (denominator + numerator) / denominator
  {
    var first := factor * denominator;
    var sum := TermSum(first, numerator, denominator, denominator);
    assert first * numerator == factor * numerator * denominator;
    MulDiv(factor * numerator, denominator);
    assert NextTerm(first, numerator, denominator) == factor * numerator;
    assert first == 0 ==> factor == 0;
    var second := factor * numerator;
    assert TermSum(second, numerator, denominator + denominator, denominator) >= second;
    assert first > 0 ==> sum == first + TermSum(second, numerator, denominator + denominator, denominator);
    assert factor * (denominator + numerator) == first + second;
    DivMonotone(factor * (denominator + numerator), sum, denominator);
    DivIsAtLeast(sum, denominator, factor);
  }

  // ---------------------------------------------------------------- the exact series

  /** The real number a term would become without rounding. */
  ghost function Exact(a: real, i: nat, x: real): real
    requires i > 0
  {
    a * x / i as real
  }

  /** `n` terms of the exponential series started from the real term `a`. */
  ghost function Series(a: real, i: nat, x: real, n: nat): real
    requires i > 0
    decreases n
  {
    if n == 0 then 0.0 else a + Series(Exact(a, i, x), i + 1, x, n - 1)
  }

  /** The error `n` terms collect when each one is rounded down before the next is formed. */
  ghost function Rounding(e: real, i: nat, x: real, n: nat): real
    requires i > 0
    decreases n
  {
    if n == 0 then 0.0 else e + Rounding(Exact(e, i, x) + 1.0, i + 1, x, n - 1)
  }

  ghost function TermCount(accum: nat, numerator: nat, divisor: nat, denominator: nat): nat
    requires divisor > 0 && denominator > 0
    decreases Growth(divisor, numerator), accum
  {
    if accum == 0 then 0
    else
      assert numerator < divisor ==> NextTerm(accum, numerator, divisor) < accum by {
        if numerator < divisor { TermShrinks(accum, numerator, divisor); }
      }
      1 + TermCount(NextTerm(accum, numerator, divisor), numerator, divisor + denominator, denominator)
  }

  lemma RealDivMonotone(a: real, b: real, c: real)
    requires c > 0.0 && a <= b
    ensures a / c <= b / c
  {
  }

  lemma ExactMonotone(a: real, b: real, i: nat, x: real)
    requires i > 0 && x >= 0.0 && a <= b
    ensures Exact(a, i, x) <= Exact(b, i, x)
  {
  }

  lemma ExactDifference(a: real, b: real, i: nat, x: real)
    requires i > 0
    ensures Exact(a - b, i, x) == Exact(a, i, x) - Exact(b, i, x)
  {
  }

  lemma {:induction false} RoundingMonotone(e: real, e': real, i: nat, x: real, n: nat)
    requires i > 0 && x >= 0.0 && e <= e'
    ensures Rounding(e, i, x, n) <= Rounding(e', i, x, n)
    decreases n
  {
    if n > 0 {
      ExactMonotone(e, e', i, x);
      RoundingMonotone(Exact(e, i, x) + 1.0, Exact(e', i, x) + 1.0, i + 1, x, n - 1);
    }
  }

  lemma RealMul(a: nat, b: nat)
    ensures (a * b) as real == a as real * b as real
  {
  }

  lemma RealMulNonnegative(a: real, b: real)
    requires a >= 0.0 && b >= 0.0
    ensures a * b >= 0.0
  {
  }

  lemma RealMulPositive(a: real, b: real)
    requires a > 0.0 && b > 0.0
    ensures a * b > 0.0
  {
  }

  lemma RealQuotient(p: real, d: real, q: real)
    requires d > 0.0 && q * d <= p < (q + 1.0) * d
    ensures q <= p / d < q + 1.0
  {
    var r := p / d;
    assert r * d == p;
    if r >= q + 1.0 {
      var t := r - (q + 1.0);
      RealMulNonnegative(t, d);
      assert false;
    }
    if r < q {
      var t := q - r;
      RealMulPositive(t, d);
      assert false;
    }
  }

  lemma RealFloor(p: nat, d: nat)
    requires d > 0
    ensures (p / d) as real <= p as real / d as real < (p / d) as real + 1.0
  {
    var q := p / d;
    DivBounds(p, d);
    RealMul(q, d);
    assert (q as real + 1.0) * d as real == q as real * d as real + d as real;
    RealQuotient(p as real, d as real, q as real);
  }

  lemma RealRatio(a: real, n: real, d: real, i: real)
    requires d > 0.0 && i > 0.0 && d * i > 0.0
    ensures a * (n / d) / i == a * n / (d * i)
  {
  }

  lemma NextTermIsFloor(accum: nat, i: nat, numerator: nat, denominator: nat)
    requires denominator * i > 0 && i > 0 && denominator > 0
    ensures var exact := Exact(accum as real, i, numerator as real / denominator as real);
            exact - 1.0 < NextTerm(accum, numerator, denominator * i) as real <= exact
  {
    RealMul(accum, numerator);
    RealMul(denominator, i);
    RealFloor(accum * numerator, denominator * i);
    RealRatio(accum as real, numerator as real, denominator as real, i as real);
    var exact := Exact(accum as real, i, numerator as real / denominator as real);
    assert exact == accum as real * numerator as real / (denominator as real * i as real);
    assert exact == (accum * numerator) as real / (denominator * i) as real;
  }

  /**
    The integer loop against the exact exponential series: it never overshoots the series it
    truncates, and undershoots by no more than the rounding its own divisions introduce.
   */
  lemma {:induction false} TermSumTracksSeries(accum: nat, a: real, i: nat, numerator: nat, divisor: nat,
                                               denominator: nat)
    requires i > 0 && denominator > 0 && divisor == denominator * i && divisor > 0
    requires accum as real <= a
    ensures var x, n := numerator as real / denominator as real, TermCount(accum, numerator, divisor, denominator);
            var sum := TermSum(accum, numerator, divisor, denominator) as real;
            sum <= Series(a, i, x, n) <= sum + Rounding(a - accum as real, i, x, n)
    decreases Growth(divisor, numerator), accum
  {
    if accum > 0 {
      var x, n := numerator as real / denominator as real, TermCount(accum, numerator, divisor, denominator);
      var next, e := NextTerm(accum, numerator, divisor), a - accum as real;
      RealDivMonotone(0.0, numerator as real, denominator as real);
      NextTermIsFloor(accum, i, numerator, denominator);
      ExactMonotone(accum as real, a, i, x);
      if numerator < divisor { TermShrinks(accum, numerator, divisor); }
      TermSumTracksSeries(next, Exact(a, i, x), i + 1, numerator, divisor + denominator, denominator);
      ExactDifference(a, accum as real, i, x);
      RoundingMonotone(Exact(a, i, x) - next as real, Exact(e, i, x) + 1.0, i + 1, x, n - 1);
    }
  }

  // ---------------------------------------------------------------- in 64 bits

  /** `Overflow` is no error value: it stands for an unchecked operation that leaves 64 bits. */
  datatype FakeExponentialError = DenominatorIsZero | CheckedMul | Overflow

  /** No unchecked product along the loop leaves 64 bits. */
  ghost predicate ProductsFit(accum: nat, numerator: nat, divisor: nat, denominator: nat)
    requires divisor > 0 && denominator > 0
    decreases Growth(divisor, numerator), accum
  {
    if accum == 0 || divisor >= U64_BOUND then true
    else
      assert numerator < divisor ==> NextTerm(accum, numerator, divisor) < accum by {
        if numerator < divisor { TermShrinks(accum, numerator, divisor); }
      }
      && accum * numerator < U64_BOUND
      && ProductsFit(NextTerm(accum, numerator, divisor), numerator, divisor + denominator, denominator)
  }

  /** Every divisor the loop forms fits in 64 bits. */
  ghost predicate DivisorsFit(accum: nat, numerator: nat, divisor: nat, denominator: nat)
    requires divisor > 0 && denominator > 0
    decreases Growth(divisor, numerator), accum
  {
    if accum == 0 then true
    else
      assert numerator < divisor ==> NextTerm(accum, numerator, divisor) < accum by {
        if numerator < divisor { TermShrinks(accum, numerator, divisor); }
      }
      divisor < U64_BOUND
        && DivisorsFit(NextTerm(accum, numerator, divisor), numerator, divisor + denominator, denominator)
  }

  /** The plain loop from a given point on: every operation may overflow. */
  ghost function PlainFrom(output: nat, accum: nat, numerator: nat, divisor: nat, denominator: nat)
    : Result<nat, FakeExponentialError>
    requires divisor > 0 && denominator > 0
    decreases Growth(divisor, numerator), accum
  {
    if accum == 0 then Ok(output / denominator)
    else if output + accum >= U64_BOUND || accum * numerator >= U64_BOUND || divisor >= U64_BOUND then Err(Overflow)
    else
      assert numerator < divisor ==> NextTerm(accum, numerator, divisor) < accum by {
        if numerator < divisor { TermShrinks(accum, numerator, divisor); }
      }
      PlainFrom(output + accum, NextTerm(accum, numerator, divisor), numerator, divisor + denominator, denominator)
  }

  /** Exactly when the plain loop overflows, and its value otherwise. */
  lemma {:induction false} PlainFromValue(output: nat, accum: nat, numerator: nat, divisor: nat, denominator: nat)
    requires divisor > 0 && denominator > 0 && output < U64_BOUND
    ensures PlainFrom(output, accum, numerator, divisor, denominator) ==
            if && ProductsFit(accum, numerator, divisor, denominator)
               && DivisorsFit(accum, numerator, divisor, denominator)
               && output + TermSum(accum, numerator, divisor, denominator) < U64_BOUND
            then Ok((output + TermSum(accum, numerator, divisor, denominator)) / denominator)
            else Err(Overflow)
    decreases Growth(divisor, numerator), accum
  {
    if accum > 0 && divisor < U64_BOUND && output + accum < U64_BOUND {
      if numerator < divisor { TermShrinks(accum, numerator, divisor); }
      var next := NextTerm(accum, numerator, divisor);
      PlainFromValue(output + accum, next, numerator, divisor + denominator, denominator);
    }
  }

  /** Nothing the plain loop computes leaves 64 bits. */
  ghost predicate ExponentialFits(factor: nat, numerator: nat, denominator: nat)
    requires denominator > 0
  {
    var first := factor * denominator;
    && first < U64_BOUND
    && ProductsFit(first, numerator, denominator, denominator)
    && DivisorsFit(first, numerator, denominator, denominator)
    && TermSum(first, numerator, denominator, denominator) < U64_BOUND
  }

  /** The plain loop: its value is the truncated series, unless something leaves 64 bits. */
  method FakeExponential(factor: nat, numerator: nat, denominator: nat) returns (r: Result<nat, FakeExponentialError>)
    requires denominator > 0
    ensures r == if ExponentialFits(factor, numerator, denominator)
                 then Ok(FakeExponentialValue(factor, numerator, denominator))
                 else Err(Overflow)
  {
    var i: nat, output: nat, accum: nat := 1, 0, factor * denominator;
    ghost var first := accum;
    if accum >= U64_BOUND {
      return Err(Overflow);
    }
    PlainFromValue(0, first, numerator, denominator, denominator);
    while accum > 0
      invariant i > 0 && Divisor(denominator, i) >= denominator
      invariant PlainFrom(0, first, numerator, denominator, denominator)
             == PlainFrom(output, accum, numerator, Divisor(denominator, i), denominator)
      decreases Growth(Divisor(denominator, i), numerator), accum
    {
      var divisor := Multiply(denominator, i);
      if output + accum >= U64_BOUND || accum * numerator >= U64_BOUND || divisor >= U64_BOUND {
        return Err(Overflow);
      }
      if numerator < divisor { TermShrinks(accum, numerator, divisor); }
      output := output + accum;
      accum := NextTerm(accum, numerator, divisor);
      i := i + 1;
    }
    r := Ok(output / denominator);
  }

  /** The checked loop from a given point on: saturating additions, checked divisors, unchecked products. */
  ghost function CheckedFrom(output: nat, accum: nat, numerator: nat, divisor: nat, denominator: nat)
    : Result<nat, FakeExponentialError>
    requires divisor > 0 && denominator > 0
    decreases Growth(divisor, numerator), accum
  {
    if accum == 0 then Ok(output / denominator)
    else if divisor >= U64_BOUND then Err(CheckedMul)
    else if accum * numerator >= U64_BOUND then Err(Overflow)
    else
      assert numerator < divisor ==> NextTerm(accum, numerator, divisor) < accum by {
        if numerator < divisor { TermShrinks(accum, numerator, divisor); }
      }
      var sum := Min(output + accum, U64_BOUND - 1);
      CheckedFrom(sum, NextTerm(accum, numerator, divisor), numerator, divisor + denominator, denominator)
  }

  lemma {:induction false} CheckedFromValue(output: nat, accum: nat, numerator: nat, divisor: nat, denominator: nat)
    requires divisor > 0 && denominator > 0 && output < U64_BOUND
    ensures CheckedFrom(output, accum, numerator, divisor, denominator) ==
            if !ProductsFit(accum, numerator, divisor, denominator) then Err(Overflow)
            else if !DivisorsFit(accum, numerator, divisor, denominator) then Err(CheckedMul)
            else Ok(Min(output + TermSum(accum, numerator, divisor, denominator), U64_BOUND - 1) / denominator)
    decreases Growth(divisor, numerator), accum
  {
    if accum > 0 && divisor < U64_BOUND {
      if numerator < divisor { TermShrinks(accum, numerator, divisor); }
      var sum, next := Min(output + accum, U64_BOUND - 1), NextTerm(accum, numerator, divisor);
      CheckedFromValue(sum, next, numerator, divisor + denominator, denominator);
    }
  }

  method FakeExponentialChecked(factor: nat, numerator: nat, denominator: nat)
    returns (r: Result<nat, FakeExponentialError>)
    ensures denominator == 0 ==> r == Err(DenominatorIsZero)
    ensures denominator > 0 ==>
              var first := factor * denominator;
              r == if first >= U64_BOUND || !ProductsFit(first, numerator, denominator, denominator) then Err(Overflow)
                   else if !DivisorsFit(first, numerator, denominator, denominator) then Err(CheckedMul)
                   else Ok(Min(TermSum(first, numerator, denominator, denominator), U64_BOUND - 1) / denominator)
  {
    var i: nat, output: nat, accum: nat := 1, 0, factor * denominator;
    if denominator == 0 {
      return Err(DenominatorIsZero);
    }
    if accum >= U64_BOUND {
      return Err(Overflow);
    }
    ghost var first := accum;
    CheckedFromValue(0, first, numerator, denominator, denominator);
    while accum > 0
      invariant i > 0 && Divisor(denominator, i) >= denominator
      invariant CheckedFrom(0, first, numerator, denominator, denominator)
             == CheckedFrom(output, accum, numerator, Divisor(denominator, i), denominator)
      decreases Growth(Divisor(denominator, i), numerator), accum
    {
      output := Min(output + accum, U64_BOUND - 1);
      var divisor := Multiply(denominator, i);
      if divisor >= U64_BOUND {
        return Err(CheckedMul);
      }
      if divisor == 0 {
        return Err(DenominatorIsZero);
      }
      if accum * numerator >= U64_BOUND {
        return Err(Overflow);
      }
      if numerator < divisor { TermShrinks(accum, numerator, divisor); }
      accum := NextTerm(accum, numerator, divisor);
      i := i + 1;
    }
    return Ok(output / denominator);
  }

  /** Whenever the plain variant does not overflow, the checked one computes its value. */
  method CheckedAgreesWithPlain(factor: nat, numerator: nat, denominator: nat)
    returns (plain: Result<nat, FakeExponentialError>, checked: Result<nat, FakeExponentialError>)
    requires denominator > 0
    ensures plain.Ok? ==> checked == plain == Ok(FakeExponentialValue(factor, numerator, denominator))
  {
    plain := FakeExponential(factor, numerator, denominator);
    checked := FakeExponentialChecked(factor, numerator, denominator);
  }
}
