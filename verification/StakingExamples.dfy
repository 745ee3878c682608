/** Reachable staking states in which the unguarded arithmetic of `execute_slash` and `top_up` shows. */
module StakingExamples {
  import opened Common
  import opened Tokens
  import opened Staking
  import opened StakingProofs

  /** The only staker of the examples, next to contract 0, token 1 and admin 2. */
  const USER: Address := 7

  datatype Held = Nothing | Held(amount: int, period: Period, start: int, unlock: int)

  /** What the examples follow of a state: the user's stake, the notice against it, the total, the
      user's own tokens and the clock. */
  ghost predicate At(s: State, held: Held, notice: Option<(int, int)>, total: int, purse: int, now: int) {
    && s.self == 0 && s.token == 1 && s.admin == 2 && s.noticePeriod == 86400
    && s.now == now && s.totalStaked == total && Balance(s.ledger, 1, USER) == purse
    && (USER in s.stakes <==> held.Held?)
    && (held.Held? ==>
          var p := s.stakes[USER];
          p.amount == held.amount && p.period == held.period && p.startTime == held.start && p.unlockTime == held.unlock)
    && (USER in s.notices <==> notice.Some?)
    && (notice.Some? ==> s.notices[USER].amount == notice.value.0 && s.notices[USER].until == notice.value.1)
  }

  lemma Stakes(s: State, notice: Option<(int, int)>, total: int, purse: int, now: int, amount: int128, months: uint32)
    requires At(s, Nothing, notice, total, purse, now)
    requires MIN_STAKE_AMOUNT <= amount <= purse && FromMonths(months).Some?
    requires FitsI128(FromMonths(months).value.Weigh(amount)) && FitsI128(total + amount) && now <= 1_000_000
    ensures var out, period := Outcome(s, CallStake(USER, amount, months, 0)), FromMonths(months).value;
            out.Ok? && At(out.value, Held(amount, period, now, now + period.Seconds()), notice, total + amount, purse - amount, now)
  {
  }

  lemma Notifies(s: State, held: Held, total: int, purse: int, now: int, amount: int128)
    requires At(s, held, None, total, purse, now)
    requires held.Held? && 0 < amount <= held.amount && now <= 1_000_000
    ensures var out := Outcome(s, CallCreateNotice(2, USER, amount));
            out.Ok? && At(out.value, held, Some((amount, now + 86400)), total, purse, now)
  {
  }

  lemma SlashesPart(s: State, held: Held, notice: Option<(int, int)>, total: int, purse: int, now: int, cut: int128)
    requires At(s, held, notice, total, purse, now)
    requires held.Held? && held.period == OneMonth && 0 < cut < held.amount && FitsI128(total - cut)
    ensures var out := Outcome(s, CallSlash(2, USER, cut));
            out.Ok? && At(out.value, held.(amount := held.amount - cut), notice, total - cut, purse, now)
  {
    hide Without;
  }

  lemma SlashesAll(s: State, held: Held, notice: Option<(int, int)>, total: int, purse: int, now: int)
    requires At(s, held, notice, total, purse, now)
    requires held.Held? && 0 < held.amount <= I128_MAX && FitsI128(total - held.amount)
    ensures var out := Outcome(s, CallSlash(2, USER, held.amount));
            out.Ok? && At(out.value, Nothing, notice, total - held.amount, purse, now)
  {
    hide Without;
  }

  lemma Waits(s: State, held: Held, notice: Option<(int, int)>, total: int, purse: int, now: int)
    requires At(s, held, notice, total, purse, now) && now <= 1_000_000
    ensures var out := Outcome(s, Tick(86400));
            out.Ok? && At(out.value, held, notice, total, purse, now + 86400)
  {
  }

  lemma Executes(s: State, held: Held, notice: (int, int), total: int, purse: int, now: int)
    requires At(s, held, Some(notice), total, purse, now)
    requires held.Held? && now >= notice.1 && FitsI128(held.amount - notice.0) && FitsI128(total - notice.0)
    ensures var out := Outcome(s, CallExecuteSlash(2, USER));
            out.Ok? && At(out.value, held.(amount := held.amount - notice.0), None, total - notice.0, purse, now)
  {
  }

  lemma Continues(start: State, calls: seq<Call>, c: Call)
    requires Outcome(Run(start, calls), c).Ok?
    ensures Run(start, calls + [c]) == Outcome(Run(start, calls), c).value
  {
    assert (calls + [c])[..|calls|] == calls;
  }

  /** A stake of 1_000_0000 under notice for all of it, then slashed directly by half, is pushed below
      zero when the notice executes. */
  lemma StakeBelowZero() returns (s: State)
    ensures Reachable(s)
    ensures At(s, Held(-500_0000, OneMonth, 1000, 1000 + 30 * 24 * 60 * 60), None, -500_0000, 1_000_0000, 87400)
  {
    hide Outcome, Run;
    var ledger: Ledger := map[(1, USER) := 2_000_0000];
    var start := Init(0, 1, 2, ledger, 1000);
    var full := Held(1_000_0000, OneMonth, 1000, 1000 + 30 * 24 * 60 * 60);
    var half := full.(amount := 500_0000);
    var calls := [];
    RunOfNothing(start);
    Stakes(start, None, 0, 2_000_0000, 1000, 1_000_0000, 1);
    calls := Extend(start, calls, CallStake(USER, 1_000_0000, 1, 0));
    Notifies(Run(start, calls), full, 1_000_0000, 1_000_0000, 1000, 1_000_0000);
    calls := Extend(start, calls, CallCreateNotice(2, USER, 1_000_0000));
    SlashesPart(Run(start, calls), full, Some((1_000_0000, 87400)), 1_000_0000, 1_000_0000, 1000, 500_0000);
    calls := Extend(start, calls, CallSlash(2, USER, 500_0000));
    Waits(Run(start, calls), half, Some((1_000_0000, 87400)), 500_0000, 1_000_0000, 1000);
    calls := Extend(start, calls, Tick(86400));
    Executes(Run(start, calls), half, (1_000_0000, 87400), 500_0000, 1_000_0000, 87400);
    calls := Extend(start, calls, CallExecuteSlash(2, USER));
    s := Run(start, calls);
  }

  lemma RunOfNothing(start: State)
    ensures Run(start, []) == start
  {
  }

  lemma Extend(start: State, calls: seq<Call>, c: Call) returns (longer: seq<Call>)
    requires Outcome(Run(start, calls), c).Ok?
    ensures longer == calls + [c] && Run(start, longer) == Outcome(Run(start, calls), c).value
  {
    longer := calls + [c];
    Continues(start, calls, c);
  }

  /** From there a top-up that brings the stake back to one unit sends its start time back to zero. */
  lemma TopUpCanMoveStartBackward() returns (s: State, amount: int128)
    ensures Reachable(s) && USER in s.stakes && s.stakes[USER].amount < 0
    ensures TopUp(s, USER, amount).Ok? && USER in TopUp(s, USER, amount).value.stakes
    ensures TopUp(s, USER, amount).value.stakes[USER].startTime < s.stakes[USER].startTime
  {
    hide Reachable;
    s := StakeBelowZero();
    amount := 500_0001;
    assert WeightedDuration(-500_0000, 86400, 1) == U64_MAX;
  }

  /** A notice outlives the stake it was raised against: executed on a later, smaller twelve-month
      stake, it leaves a voting power that is not five times the amount. */
  lemma ExecuteSlashCanWrapVotingPower() returns (s: State)
    ensures Reachable(s) && USER in s.stakes
    ensures VotingPower(s, USER) != s.stakes[USER].amount * s.stakes[USER].period.Multiplier()
  {
    s := StaleNoticeExecuted();
    VotingPowerIsExactUnlessItWraps(s, USER);
  }

  lemma StaleNoticeExecuted() returns (s: State)
    ensures Reachable(s)
    ensures At(s, Held(2_000_0000 - I128_MAX, TwelveMonths, 1000, 1000 + 360 * 24 * 60 * 60), None, 2_000_0000 - I128_MAX, 0, 87400)
  {
    hide Outcome, Run;
    var huge := I128_MAX - 1_000_0000;
    var ledger: Ledger := map[(1, USER) := I128_MAX];
    var start := Init(0, 1, 2, ledger, 1000);
    var first := Held(huge, OneMonth, 1000, 1000 + 30 * 24 * 60 * 60);
    var second := Held(1_000_0000, TwelveMonths, 1000, 1000 + 360 * 24 * 60 * 60);
    var notice := (huge, 87400);
    var calls := [];
    RunOfNothing(start);
    Stakes(start, None, 0, I128_MAX, 1000, huge, 1);
    calls := Extend(start, calls, CallStake(USER, huge, 1, 0));
    Notifies(Run(start, calls), first, huge, 1_000_0000, 1000, huge);
    calls := Extend(start, calls, CallCreateNotice(2, USER, huge));
    SlashesAll(Run(start, calls), first, Some(notice), huge, 1_000_0000, 1000);
    calls := Extend(start, calls, CallSlash(2, USER, huge));
    Stakes(Run(start, calls), Some(notice), 0, 1_000_0000, 1000, 1_000_0000, 12);
    calls := Extend(start, calls, CallStake(USER, 1_000_0000, 12, 0));
    Waits(Run(start, calls), second, Some(notice), 1_000_0000, 0, 1000);
    calls := Extend(start, calls, Tick(86400));
    Executes(Run(start, calls), second, notice, 1_000_0000, 0, 87400);
    calls := Extend(start, calls, CallExecuteSlash(2, USER));
    s := Run(start, calls);
  }
}
