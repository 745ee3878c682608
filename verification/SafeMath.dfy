/** Checked i128 arithmetic and percentages (packages/common/src/math.rs). */
module SafeMath {
  import opened Common

  datatype MathError = Overflow | Underflow | DivisionByZero

  function SafeSub(a: int128, b: int128): Result<int128, MathError> {
    if FitsI128(a - b) then Ok(a - b) else Err(Underflow)
  }

  function SafeMul(a: int128, b: int128): Result<int128, MathError> {
    if FitsI128(a * b) then Ok(a * b) else Err(Overflow)
  }

  function SafeDiv(a: int128, b: int128): Result<int128, MathError> {
    if b == 0 then Err(DivisionByZero)
    else
      var x: int := a;
      var y: int := b;
      var q := if y > 0 then TruncDiv(x, y) else TruncDiv(-x, -y);
      if FitsI128(q) then Ok(q) else Err(Overflow)
  }

  /** `bps` ten-thousandths of `amount`. */
  function CalculatePercentage(amount: int128, bps: int128): Result<int128, MathError> {
    if bps < 0 || bps > 10_000 then Err(Overflow)
    else
      var product :- SafeMul(amount, bps);
      SafeDiv(product, 10_000)
  }

  datatype Split = Split(net: int128, fee: int128)

  function ApplyFee(amount: int128, feeBps: int128): Result<Split, MathError> {
    var fee :- CalculatePercentage(amount, feeBps);
    var net :- SafeSub(amount, fee);
    Ok(Split(net, fee))
  }

  lemma PercentageBounds(amount: int128, bps: int128)
    requires amount >= 0 && 0 <= bps <= 10_000
    ensures 0 <= amount * bps / 10_000 <= amount
  {
    ProductWithin(amount, bps, 10_000);
  }

  lemma ProductWithin(a: nat, b: nat, c: nat)
    requires b <= c
    ensures 0 <= a * b <= a * c
  {
    assert a * (c - b) >= 0;
  }

  /** A percentage of a non-negative amount exists exactly when the rate is in range and the product
      fits; it is the floored share, between nothing and the whole amount. */
  lemma PercentageIsFlooredShare(amount: int128, bps: int128)
    requires amount >= 0
    ensures CalculatePercentage(amount, bps).Ok? <==> 0 <= bps <= 10_000 && amount * bps <= I128_MAX
    ensures CalculatePercentage(amount, bps).Ok? ==>
              var part := CalculatePercentage(amount, bps).value;
              0 <= part <= amount && part * 10_000 <= amount * bps < part * 10_000 + 10_000
  {
    if 0 <= bps <= 10_000 {
      PercentageBounds(amount, bps);
    }
  }

  /** A fee splits a non-negative amount exactly: net and fee are non-negative and add up to it. The
      split fails only for a rate out of range or a product that overflows. */
  lemma FeeSplitsAmount(amount: int128, feeBps: int128)
    requires amount >= 0
    ensures ApplyFee(amount, feeBps).Ok? <==> 0 <= feeBps <= 10_000 && amount * feeBps <= I128_MAX
    ensures ApplyFee(amount, feeBps).Ok? ==>
              var split := ApplyFee(amount, feeBps).value;
              split.net + split.fee == amount && split.net >= 0 && split.fee >= 0
              && split.fee * 10_000 <= amount * feeBps < split.fee * 10_000 + 10_000
  {
    hide CalculatePercentage;
    PercentageIsFlooredShare(amount, feeBps);
  }
}
