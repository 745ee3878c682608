/** The reward-eligible principal (`get_time_weighted_amount`): how it grows over a stake's term. */
module StakingRewards {
  import opened Common
  import opened Staking

  /** In the source's saturating u128 arithmetic, with its final cast to i128. */
  function Eligible(p: Position, now: uint64): int128 {
    var span := SatSub(p.unlockTime, p.startTime);
    if span == 0 || now <= p.startTime then p.amount
    else WrapI128(SatMulU128(AsU128(p.amount), Min(SatSub(now, p.startTime), span)) / span)
  }

  lemma ProductGrows(a: nat, x: nat, y: nat)
    requires x <= y
    ensures 0 <= a * x <= a * y
  {
    assert a * (y - x) >= 0;
  }

  lemma OrderFromProducts(a: int, b: int, n: nat)
    requires n > 0 && n * a < n * b + n
    ensures a <= b
  {
    assert n * (b + 1 - a) > 0;
    PositiveFactor(b + 1 - a, n);
  }

  lemma PositiveFactor(x: int, n: nat)
    requires n * x > 0
    ensures x > 0
  {
  }

  lemma QuotientGrows(x: nat, y: nat, n: nat)
    requires x <= y && n > 0
    ensures 0 <= x / n <= y / n
  {
    FloorBounds(x, n);
    FloorBounds(y, n);
    OrderFromProducts(x / n, y / n, n);
  }

  lemma QuotientIsExact(a: nat, n: nat)
    requires n > 0
    ensures a * n / n == a
  {
    FloorBounds(a * n, n);
    OrderFromProducts(a * n / n, a, n);
    OrderFromProducts(a, a * n / n, n);
  }

  /** Before the cast: the floored share of the amount, or of the saturated product. */
  function Earned(amount: nat, elapsed: nat, span: nat): nat
    requires span > 0
  {
    Min(amount * elapsed, U128_MAX) / span
  }

  lemma EarnedGrows(amount: nat, x: nat, y: nat, span: nat)
    requires x <= y <= span && span > 0
    ensures Earned(amount, x, span) <= Earned(amount, y, span) <= amount
  {
    ProductGrows(amount, x, y);
    ProductGrows(amount, y, span);
    QuotientGrows(Min(amount * x, U128_MAX), Min(amount * y, U128_MAX), span);
    QuotientGrows(Min(amount * y, U128_MAX), amount * span, span);
    QuotientIsExact(amount, span);
  }

  lemma EligibleIsEarned(p: Position, now: uint64)
    requires p.amount >= 0 && p.startTime < now && p.startTime < p.unlockTime
    ensures Eligible(p, now) == Earned(p.amount, Min(now - p.startTime, p.unlockTime - p.startTime), p.unlockTime - p.startTime)
  {
    var span, elapsed := p.unlockTime - p.startTime, Min(now - p.startTime, p.unlockTime - p.startTime);
    assert SatMulU128(p.amount, elapsed) == Min(p.amount * elapsed, U128_MAX);
    EarnedGrows(p.amount, elapsed, elapsed, span);
    WrapIsExactWhenItFits(Earned(p.amount, elapsed, span));
    hide WrapI128, SatMulU128;
  }

  /** Once time has passed since its start, a stake's eligible principal only grows, up to the amount. */
  lemma EligibleOnlyGrowsOnceStarted(p: Position, t: uint64, t': uint64)
    requires p.amount >= 0 && p.startTime < t <= t'
    ensures 0 <= Eligible(p, t) <= Eligible(p, t') <= p.amount
  {
    if p.startTime < p.unlockTime {
      hide Eligible, Earned;
      EligibleIsEarned(p, t);
      EligibleIsEarned(p, t');
      var span := p.unlockTime - p.startTime;
      EarnedGrows(p.amount, Min(t - p.startTime, span), Min(t' - p.startTime, span), span);
    }
  }

  /** At and after the unlock time the whole amount is eligible exactly when the product does not saturate
      by a whole span or more. */
  lemma WholeAmountIsEligibleAtUnlock(p: Position, now: uint64)
    requires p.amount >= 0 && p.startTime < p.unlockTime <= now
    ensures Eligible(p, now) == p.amount <==> p.amount * (p.unlockTime - p.startTime) <= U128_MAX
  {
    var span := p.unlockTime - p.startTime;
    EligibleIsEarned(p, now);
    hide Eligible;
    QuotientIsExact(p.amount, span);
    if p.amount * span > U128_MAX {
      FloorBounds(U128_MAX, span);
      if U128_MAX / span >= p.amount {
        ProductGrows(span, p.amount, U128_MAX / span);
      }
    }
  }

  /** At the very instant of its start the whole amount counts, and a second later next to nothing: the
      eligible principal is not monotone over a stake's whole life. */
  lemma EligibleDropsAfterTheFirstInstant(p: Position)
    requires p.amount > 0 && p.startTime + 1 < p.unlockTime
    ensures Eligible(p, p.startTime) == p.amount > Eligible(p, p.startTime + 1)
  {
    var span := p.unlockTime - p.startTime;
    EligibleIsEarned(p, p.startTime + 1);
    ProductGrows(p.amount, 2, span);
    FloorBounds(Min(p.amount, U128_MAX), span);
    if Earned(p.amount, 1, span) >= p.amount {
      ProductGrows(span, p.amount, Earned(p.amount, 1, span));
    }
  }

  ghost predicate OnlyGrows(p: Position) {
    forall t: uint64, t': uint64 :: p.startTime <= t <= t' ==> Eligible(p, t) <= Eligible(p, t')
  }

  /** So the eligible principal of a stake only grows from its start on if and only if there is no amount,
      or at most one second between start and unlock. */
  lemma EligibleOnlyGrowsExactlyWhen(p: Position)
    requires p.amount >= 0
    ensures OnlyGrows(p) <==> p.amount == 0 || p.unlockTime <= p.startTime + 1
  {
    if p.amount == 0 || p.unlockTime <= p.startTime + 1 {
      forall t: uint64, t': uint64 | p.startTime <= t <= t'
        ensures Eligible(p, t) <= Eligible(p, t')
      {
        if t == p.startTime {
          StartIsNoHigher(p, t');
        } else {
          EligibleOnlyGrowsOnceStarted(p, t, t');
        }
      }
    } else {
      EligibleDropsAfterTheFirstInstant(p);
      assert p.startTime <= p.startTime <= p.startTime + 1;
      hide Eligible;
    }
  }

  lemma StartIsNoHigher(p: Position, t: uint64)
    requires p.amount >= 0 && p.startTime <= t && (p.amount == 0 || p.unlockTime <= p.startTime + 1)
    ensures Eligible(p, p.startTime) <= Eligible(p, t)
  {
    if p.startTime < t && p.startTime < p.unlockTime {
      EligibleIsEarned(p, t);
      if p.amount > 0 {
        QuotientIsExact(p.amount, 1);
        assert Earned(p.amount, 1, 1) == p.amount;
      }
    }
  }

  /** That is never the case of a stake as it is opened. */
  lemma OpenedStakesDoNotOnlyGrow(s: State, user: Address, amount: int128, months: uint32, sequence: uint32)
    requires Stake(s, user, amount, months, sequence).Ok?
    ensures user in Stake(s, user, amount, months, sequence).value.stakes
    ensures !OnlyGrows(Stake(s, user, amount, months, sequence).value.stakes[user])
  {
    hide OnlyGrows;
    EligibleOnlyGrowsExactlyWhen(Stake(s, user, amount, months, sequence).value.stakes[user]);
  }
}
