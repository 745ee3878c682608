/** Funding, aggregates and lock times of the staking contract, over every run. */
module StakingProofs {
  import opened Common
  import opened Tokens
  import opened Staking

  // ----- the amounts behind positions -----

  function Positive(x: int): nat {
    if x > 0 then x else 0
  }

  ghost function Amounts(m: map<Address, Position>): map<Address, int> {
    map u | u in m :: m[u].amount
  }

  ghost function StakeDues(m: map<Address, Position>): map<Address, int> {
    map u | u in m :: Positive(m[u].amount)
  }

  ghost function UnbondingDues(m: map<Address, Unbonding>): map<Address, int> {
    map u | u in m :: Positive(m[u].amount)
  }

  /** What the contract still owes: the positive parts of every stake and unbonding position. */
  ghost function TotalDues(s: State): int {
    SumMap(StakeDues(s.stakes)) + SumMap(UnbondingDues(s.unbonding))
  }

  function UserDues(s: State, u: Address): nat {
    (if u in s.stakes then Positive(s.stakes[u].amount) else 0)
    + (if u in s.unbonding then Positive(s.unbonding[u].amount) else 0)
  }

  // ----- the invariant -----

  predicate PowerMatches(p: Position) {
    && p.votingPower == WrapI128(p.period.Weigh(p.amount))
    && (p.amount >= 0 ==> p.period.Weigh(p.amount) <= I128_MAX)
  }

  /** What holds of each user: claims stay within deposits, and each position carries the lock its
      `stake` call set and the voting power its amount and period give. */
  ghost predicate UserSound(s: State, u: Address) {
    && Of(s.claimed, u) + UserDues(s, u) <= Of(s.deposited, u)
    && (u in s.stakes || u in s.unbonding ==> u != s.self)
    && (u in s.notices ==> s.notices[u].amount > 0)
    && (u in s.stakes <==> u in s.openings)
    && (u in s.unbonding <==> u in s.unbondingOpenings)
    && (u in s.stakes ==>
          var p, o := s.stakes[u], s.openings[u];
          && PowerMatches(p)
          && p.startTime <= p.unlockTime && p.startTime <= s.now
          && p.period == o.period && p.unlockTime == o.time + o.period.Seconds())
    && (u in s.unbonding ==>
          var o := s.unbondingOpenings[u];
          s.unbonding[u].claimableTime >= o.time + o.period.Seconds() + UNBONDING_PERIOD_SECONDS)
  }

  ghost predicate Aggregated(s: State) {
    && s.totalStaked == SumMap(Amounts(s.stakes))
    && Distinct(s.stakers)
    && (forall u :: u in s.stakers <==> u in s.stakes)
  }

  ghost predicate Funded(s: State) {
    Balance(s.ledger, s.token, s.self) >= TotalDues(s)
  }

  ghost predicate Inv(s: State) {
    Funded(s) && Aggregated(s) && forall u :: UserSound(s, u)
  }

  // ----- how the sums move -----

  lemma StakeRemovalSums(m: map<Address, Position>, u: Address)
    ensures SumMap(Amounts(m - {u})) == SumMap(Amounts(m)) - (if u in m then m[u].amount else 0)
    ensures SumMap(StakeDues(m - {u})) == SumMap(StakeDues(m)) - (if u in m then Positive(m[u].amount) else 0)
  {
    assert Amounts(m - {u}) == Amounts(m) - {u};
    assert StakeDues(m - {u}) == StakeDues(m) - {u};
    SumMapRemove(Amounts(m), u);
    SumMapRemove(StakeDues(m), u);
  }

  lemma UnbondingRemovalSums(m: map<Address, Unbonding>, u: Address)
    ensures SumMap(UnbondingDues(m - {u})) == SumMap(UnbondingDues(m)) - (if u in m then Positive(m[u].amount) else 0)
  {
    assert UnbondingDues(m - {u}) == UnbondingDues(m) - {u};
    SumMapRemove(UnbondingDues(m), u);
  }

  // ----- one user's step -----

  function AmountOf(s: State, u: Address): int {
    if u in s.stakes then s.stakes[u].amount else 0
  }

  /** A step that touches nothing but one user's entries, the totals over them and the tokens that
      user pays in (`inflow`) or is paid (`outflow`). */
  ghost predicate OneUser(s: State, s': State, u: Address, inflow: nat, outflow: nat) {
    && s'.self == s.self && s'.token == s.token && s'.now == s.now
    && s'.stakes - {u} == s.stakes - {u}
    && s'.unbonding - {u} == s.unbonding - {u}
    && s'.notices - {u} == s.notices - {u}
    && s'.openings - {u} == s.openings - {u}
    && s'.unbondingOpenings - {u} == s.unbondingOpenings - {u}
    && s'.deposited - {u} == s.deposited - {u}
    && s'.claimed - {u} == s.claimed - {u}
    && Balance(s'.ledger, s.token, s.self) == Balance(s.ledger, s.token, s.self) + inflow - outflow
    && UserDues(s', u) + outflow <= UserDues(s, u) + inflow
    && s'.totalStaked == s.totalStaked - AmountOf(s, u) + AmountOf(s', u)
    && s'.stakers == (if u in s.stakes && u !in s'.stakes then Without(s.stakers, u)
                      else if u !in s.stakes && u in s'.stakes then s.stakers + [u]
                      else s.stakers)
  }

  lemma SameElsewhere<T>(m: map<Address, T>, m': map<Address, T>, user: Address, u: Address)
    requires m - {user} == m' - {user} && u != user
    ensures (u in m <==> u in m') && (u in m ==> m[u] == m'[u])
  {
    assert u in m <==> u in m - {user};
    assert u in m' <==> u in m' - {user};
    assert u in m ==> m[u] == (m - {user})[u] == (m' - {user})[u];
  }

  lemma OthersUntouched(s: State, s': State, user: Address, inflow: nat, outflow: nat, u: Address)
    requires OneUser(s, s', user, inflow, outflow) && UserSound(s, u) && u != user
    ensures UserSound(s', u)
  {
    SameElsewhere(s.stakes, s'.stakes, user, u);
    SameElsewhere(s.unbonding, s'.unbonding, user, u);
    SameElsewhere(s.notices, s'.notices, user, u);
    SameElsewhere(s.openings, s'.openings, user, u);
    SameElsewhere(s.unbondingOpenings, s'.unbondingOpenings, user, u);
    SameElsewhere(s.deposited, s'.deposited, user, u);
    SameElsewhere(s.claimed, s'.claimed, user, u);
  }

  lemma DuesSplit(s: State, user: Address)
    ensures TotalDues(s) == UserDues(s, user) + SumMap(StakeDues(s.stakes - {user})) + SumMap(UnbondingDues(s.unbonding - {user}))
  {
    StakeRemovalSums(s.stakes, user);
    UnbondingRemovalSums(s.unbonding, user);
  }

  lemma OneUserKeepsFunded(s: State, s': State, u: Address, inflow: nat, outflow: nat)
    requires Funded(s) && OneUser(s, s', u, inflow, outflow)
    ensures Funded(s')
  {
    DuesSplit(s, u);
    DuesSplit(s', u);
  }

  lemma OneUserKeepsAggregated(s: State, s': State, u: Address, inflow: nat, outflow: nat)
    requires Aggregated(s) && OneUser(s, s', u, inflow, outflow)
    ensures Aggregated(s')
  {
    StakeRemovalSums(s.stakes, u);
    StakeRemovalSums(s'.stakes, u);
    OneUserKeepsList(s, s', u, inflow, outflow);
    hide Distinct, Without, UserDues, Balance;
  }

  lemma OneUserKeepsList(s: State, s': State, u: Address, inflow: nat, outflow: nat)
    requires Aggregated(s) && OneUser(s, s', u, inflow, outflow)
    ensures Distinct(s'.stakers) && forall x :: x in s'.stakers <==> x in s'.stakes
  {
    hide UserDues, Balance, SumMap;
    WithoutMembers(s.stakers, u);
    WithoutDistinct(s.stakers, u);
    forall x
      ensures x in s'.stakers <==> x in s'.stakes
    {
      if x != u {
        SameElsewhere(s.stakes, s'.stakes, u, x);
      }
    }
  }

  lemma OneUserKeeps(s: State, s': State, u: Address, inflow: nat, outflow: nat)
    requires Inv(s) && OneUser(s, s', u, inflow, outflow) && UserSound(s', u)
    ensures Inv(s')
  {
    OneUserKeepsFunded(s, s', u, inflow, outflow);
    OneUserKeepsAggregated(s, s', u, inflow, outflow);
    forall x
      ensures UserSound(s', x)
    {
      if x != u {
        OthersUntouched(s, s', u, inflow, outflow, x);
      }
    }
  }

  // ----- every entry point is such a step -----

  lemma StakeIsSound(s: State, user: Address, amount: int128, months: uint32, sequence: uint32)
    requires UserSound(s, user) && Stake(s, user, amount, months, sequence).Ok?
    ensures var s' := Stake(s, user, amount, months, sequence).value;
            amount > 0 && OneUser(s, s', user, amount, 0) && UserSound(s', user)
  {
    var p := Stake(s, user, amount, months, sequence).value.stakes[user];
    WrapIsExactWhenItFits(p.period.Weigh(amount));
  }

  lemma UnstakeIsSound(s: State, user: Address)
    requires UserSound(s, user) && Unstake(s, user).Ok?
    ensures var s' := Unstake(s, user).value;
            OneUser(s, s', user, 0, 0) && UserSound(s', user)
  {
  }

  lemma ClaimIsSound(s: State, user: Address)
    requires UserSound(s, user) && Claim(s, user).Ok?
    ensures user in s.unbonding && s.unbonding[user].amount >= 0
    ensures var s' := Claim(s, user).value;
            OneUser(s, s', user, 0, s.unbonding[user].amount) && UserSound(s', user)
  {
  }

  lemma SlashIsSound(s: State, admin: Address, user: Address, shortfall: int128)
    requires UserSound(s, user) && Slash(s, admin, user, shortfall).Ok?
    ensures var s' := Slash(s, admin, user, shortfall).value;
            OneUser(s, s', user, 0, 0) && UserSound(s', user)
  {
    hide Without, Balance;
    var p := s.stakes[user];
    var rest := p.amount - SlashAmount(p, shortfall);
    assert rest != 0 ==> PowerMatches(p.(amount := rest, votingPower := CheckedPower(rest, p.period).value)) by {
      WrapIsExactWhenItFits(p.period.Weigh(rest));
    }
    hide PowerMatches, CheckedPower;
  }

  lemma TopUpIsSound(s: State, user: Address, amount: int128)
    requires UserSound(s, user) && TopUp(s, user, amount).Ok?
    ensures var s' := TopUp(s, user, amount).value;
            amount > 0 && OneUser(s, s', user, amount, 0) && UserSound(s', user)
  {
    hide WeightedDuration;
    var p := TopUp(s, user, amount).value.stakes[user];
    WrapIsExactWhenItFits(p.period.Weigh(p.amount));
  }

  lemma ExecuteSlashIsSound(s: State, admin: Address, user: Address)
    requires UserSound(s, user) && ExecuteSlash(s, admin, user).Ok?
    ensures var s' := ExecuteSlash(s, admin, user).value;
            OneUser(s, s', user, 0, 0) && UserSound(s', user)
  {
  }

  lemma NoticeIsSound(s: State, c: Call)
    requires c.CallCreateNotice? || c.CallCancelSlash?
    requires UserSound(s, c.user) && Outcome(s, c).Ok?
    ensures OneUser(s, Outcome(s, c).value, c.user, 0, 0) && UserSound(Outcome(s, c).value, c.user)
  {
  }

  /** Steps that touch no user: the clock, the settings and other accounts' transfers. */
  lemma AmbientKeeps(s: State, s': State)
    requires Inv(s)
    requires s' == s.(admin := s'.admin, noticePeriod := s'.noticePeriod, now := s'.now, ledger := s'.ledger)
    requires s'.now >= s.now && Balance(s'.ledger, s.token, s.self) >= Balance(s.ledger, s.token, s.self)
    ensures Inv(s')
  {
    forall u
      ensures UserSound(s', u)
    {
      assert UserSound(s, u);
    }
  }

  /** Other accounts' tokens moving, which only raises what the contract holds. */
  lemma TokensStep(s: State, c: Call)
    requires c.Elsewhere? || c.Mint?
    ensures var out := Outcome(s, c);
            out.Ok? && out.value == s.(ledger := out.value.ledger)
            && Balance(out.value.ledger, s.token, s.self) >= Balance(s.ledger, s.token, s.self)
  {
    hide Balance, Moved, Credit;
    if c.Elsewhere? && c.from != s.self && c.tokens <= Balance(s.ledger, s.token, c.from) {
      ForeignTransferKeepsBalance(s, c.from, c.to, c.tokens);
    } else if c.Mint? {
      MintKeepsBalance(s, c.to, c.tokens);
    }
  }

  lemma AmbientStep(s: State, c: Call)
    requires c.CallSetNoticePeriod? || c.CallUpdateAdmin? || c.Tick? || c.Elsewhere? || c.Mint?
    ensures var s' := Settled(s, Outcome(s, c));
            && s' == s.(admin := s'.admin, noticePeriod := s'.noticePeriod, now := s'.now, ledger := s'.ledger)
            && s'.now >= s.now && Balance(s'.ledger, s.token, s.self) >= Balance(s.ledger, s.token, s.self)
  {
    hide Stake, Unstake, Claim, Slash, TopUp, ExecuteSlash, CreateSlashNotice, CancelSlash, Balance, Moved, Credit;
    if c.Elsewhere? || c.Mint? {
      hide Outcome;
      TokensStep(s, c);
    }
  }

  lemma ForeignTransferKeepsBalance(s: State, from: Address, to: Address, tokens: nat)
    requires from != s.self && tokens <= Balance(s.ledger, s.token, from)
    ensures Balance(Moved(s.ledger, s.token, from, to, tokens), s.token, s.self) >= Balance(s.ledger, s.token, s.self)
  {
    hide Moved;
  }

  lemma MintKeepsBalance(s: State, to: Address, tokens: nat)
    ensures Balance(Credit(s.ledger, s.token, to, tokens), s.token, s.self) >= Balance(s.ledger, s.token, s.self)
  {
    hide Credit;
  }

  lemma StepKeeps(s: State, c: Call)
    requires Inv(s)
    ensures Inv(Settled(s, Outcome(s, c)))
  {
    hide Stake, Unstake, Claim, Slash, TopUp, ExecuteSlash, CreateSlashNotice, CancelSlash, SetNoticePeriod, UpdateAdmin,
         OneUser, UserSound, Funded, Aggregated;
    var out := Outcome(s, c);
    if out.Ok? {
      match c
      case CallStake(u, a, m, q) => StakeIsSound(s, u, a, m, q); OneUserKeeps(s, out.value, u, a, 0);
      case CallUnstake(u) => UnstakeIsSound(s, u); OneUserKeeps(s, out.value, u, 0, 0);
      case CallClaim(u) => ClaimIsSound(s, u); OneUserKeeps(s, out.value, u, 0, s.unbonding[u].amount);
      case CallSlash(ad, u, f) => SlashIsSound(s, ad, u, f); OneUserKeeps(s, out.value, u, 0, 0);
      case CallTopUp(u, a) => TopUpIsSound(s, u, a); OneUserKeeps(s, out.value, u, a, 0);
      case CallExecuteSlash(ad, u) => ExecuteSlashIsSound(s, ad, u); OneUserKeeps(s, out.value, u, 0, 0);
      case CallCreateNotice(_, u, _) => NoticeIsSound(s, c); OneUserKeeps(s, out.value, u, 0, 0);
      case CallCancelSlash(_, u) => NoticeIsSound(s, c); OneUserKeeps(s, out.value, u, 0, 0);
      case CallSetNoticePeriod(_, _) => AmbientStep(s, c); AmbientKeeps(s, out.value);
      case CallUpdateAdmin(_, _) => AmbientStep(s, c); AmbientKeeps(s, out.value);
      case Tick(_) => AmbientStep(s, c); AmbientKeeps(s, out.value);
      case Elsewhere(_, _, _) => AmbientStep(s, c); AmbientKeeps(s, out.value);
      case Mint(_, _) => AmbientStep(s, c); AmbientKeeps(s, out.value);
    }
  }

  ghost predicate Reachable(s: State) {
    exists self, token, admin, ledger, now, calls :: s == Run(Init(self, token, admin, ledger, now), calls)
  }

  lemma {:induction false} RunKeeps(s: State, calls: seq<Call>)
    requires Inv(s)
    ensures Inv(Run(s, calls))
  {
    if calls != [] {
      RunKeeps(s, calls[..|calls| - 1]);
      StepKeeps(Run(s, calls[..|calls| - 1]), calls[|calls| - 1]);
    }
  }

  /** Main result: in every reachable state the contract's tokens cover all positive stakes and
      unbonding positions, nobody has claimed more than they paid in, the total and the staker list
      are what the positions say, and each position keeps the lock its `stake` call set. */
  lemma ReachableStatesAreSound(s: State)
    requires Reachable(s)
    ensures Inv(s)
  {
    var self, token, admin, ledger, now, calls :| s == Run(Init(self, token, admin, ledger, now), calls);
    RunKeeps(Init(self, token, admin, ledger, now), calls);
  }

  // ----- consequences -----

  /** In every reachable state a claim is paid as soon as its time has come: it never meets a short
      contract balance. Only a position slashed below zero traps in the token contract. */
  lemma ClaimIsAlwaysFunded(s: State, user: Address)
    requires Reachable(s)
    ensures Claim(s, user) != Err(InsufficientContractBalance)
    ensures Claim(s, user).Ok? <==> user in s.unbonding && s.now >= s.unbonding[user].claimableTime && s.unbonding[user].amount >= 0
  {
    ReachableStatesAreSound(s);
    assert UserSound(s, user);
    if user in s.unbonding {
      var dues := UnbondingDues(s.unbonding);
      SumMapAtLeast(dues, user);
      SumMapNonNegative(StakeDues(s.stakes));
    }
  }

  /** A successful claim comes no earlier than the stake period plus fourteen days after the `stake`
      call that opened the position. */
  lemma ClaimWaitsOutPeriodAndUnbonding(s: State, user: Address)
    requires Reachable(s) && Claim(s, user).Ok?
    ensures user in s.unbondingOpenings
    ensures s.now >= s.unbondingOpenings[user].time + s.unbondingOpenings[user].period.Seconds() + UNBONDING_PERIOD_SECONDS
  {
    ReachableStatesAreSound(s);
    assert UserSound(s, user);
  }

  /** An opening on record is that of an earlier successful `stake` call of the run. */
  ghost predicate OpenedIn(start: State, calls: seq<Call>, user: Address, o: Opening) {
    exists k :: 0 <= k < |calls| && IsOpening(start, calls, k, user, o)
  }

  ghost predicate IsOpening(start: State, calls: seq<Call>, k: nat, user: Address, o: Opening)
    requires k < |calls|
  {
    && calls[k].CallStake? && calls[k].user == user && FromMonths(calls[k].months) == Some(o.period)
    && Run(start, calls[..k]).now == o.time
    && Outcome(Run(start, calls[..k]), calls[k]).Ok?
  }

  lemma OpenedInExtends(start: State, calls: seq<Call>, c: Call, user: Address, o: Opening)
    requires OpenedIn(start, calls, user, o)
    ensures OpenedIn(start, calls + [c], user, o)
  {
    var k :| 0 <= k < |calls| && IsOpening(start, calls, k, user, o);
    assert (calls + [c])[..k] == calls[..k];
    assert IsOpening(start, calls + [c], k, user, o);
  }

  lemma UnstakeMovesOpening(s: State, user: Address)
    requires Unstake(s, user).Ok?
    ensures var s' := Unstake(s, user).value;
            s'.openings == s.openings - {user}
            && s'.unbondingOpenings == if user in s.openings then s.unbondingOpenings[user := s.openings[user]] else s.unbondingOpenings
  {
  }

  lemma StakeAddsOpening(s: State, user: Address, amount: int128, months: uint32, sequence: uint32)
    requires Stake(s, user, amount, months, sequence).Ok?
    ensures var s' := Stake(s, user, amount, months, sequence).value;
            FromMonths(months).Some? && s'.openings == s.openings[user := Opening(s.now, FromMonths(months).value)]
            && s'.unbondingOpenings == s.unbondingOpenings
  {
  }

  lemma OthersOnlyDropOpenings(s: State, c: Call)
    requires !c.CallStake? && !c.CallUnstake? && Outcome(s, c).Ok?
    ensures var s' := Outcome(s, c).value;
            && (s'.openings == s.openings || exists u :: s'.openings == s.openings - {u})
            && (s'.unbondingOpenings == s.unbondingOpenings || exists u :: s'.unbondingOpenings == s.unbondingOpenings - {u})
  {
    hide Stake, Unstake, HostTransfer, Moved, Credit, Balance, Without, WeightedDuration, WrapI128, SlashAmount, CheckedPower;
  }

  /** A step's openings are earlier ones of the same user, or that of the `stake` call it makes. */
  lemma OpeningsOfStep(s: State, c: Call, u: Address)
    ensures var s' := Settled(s, Outcome(s, c));
            && (u in s'.openings ==>
                  || (u in s.openings && s'.openings[u] == s.openings[u])
                  || (c.CallStake? && c.user == u && Outcome(s, c).Ok?
                      && s'.openings[u].time == s.now && FromMonths(c.months) == Some(s'.openings[u].period)))
            && (u in s'.unbondingOpenings ==>
                  || (u in s.unbondingOpenings && s'.unbondingOpenings[u] == s.unbondingOpenings[u])
                  || (u in s.openings && s'.unbondingOpenings[u] == s.openings[u]))
  {
    hide Stake, Unstake, FromMonths;
    if Outcome(s, c).Ok? {
      if c.CallStake? {
        StakeAddsOpening(s, c.user, c.amount, c.months, c.sequence);
      } else if c.CallUnstake? {
        UnstakeMovesOpening(s, c.user);
      } else {
        hide Outcome;
        OthersOnlyDropOpenings(s, c);
      }
    }
  }

  /** Whatever happens between, each position goes back to its own `stake` call: no other entry point
      creates an opening or changes one. */
  lemma {:induction false} OpeningsComeFromStakeCalls(start: State, calls: seq<Call>, u: Address)
    requires start.openings == map[] && start.unbondingOpenings == map[]
    ensures var s := Run(start, calls);
            && (u in s.openings ==> OpenedIn(start, calls, u, s.openings[u]))
            && (u in s.unbondingOpenings ==> OpenedIn(start, calls, u, s.unbondingOpenings[u]))
  {
    if calls != [] {
      hide Outcome;
      var n := |calls| - 1;
      var before, c := calls[..n], calls[n];
      OpeningsComeFromStakeCalls(start, before, u);
      var s, s' := Run(start, before), Run(start, calls);
      OpeningsOfStep(s, c, u);
      assert calls == before + [c];
      forall o | OpenedIn(start, before, u, o)
        ensures OpenedIn(start, calls, u, o)
      {
        OpenedInExtends(start, before, c, u, o);
      }
      if u in s'.openings && !(u in s.openings && s'.openings[u] == s.openings[u]) {
        assert IsOpening(start, calls, n, u, s'.openings[u]);
      }
    }
  }

  /** No entry point but `stake` sets an unlock time: a position that survives a step keeps its
      unlock time, its period and its ledger bounds. */
  lemma UnlockTimeNeverMoves(s: State, c: Call, u: Address)
    requires u in s.stakes && u in Settled(s, Outcome(s, c)).stakes
    ensures var p, p' := s.stakes[u], Settled(s, Outcome(s, c)).stakes[u];
            p' == p.(amount := p'.amount, startTime := p'.startTime, votingPower := p'.votingPower)
            && (p'.startTime != p.startTime ==> c.CallTopUp? && c.user == u)
  {
    match c
    case CallSlash(ad, x, f) => var out := Slash(s, ad, x, f);
    case CallTopUp(x, a) => var out := TopUp(s, x, a);
    case CallExecuteSlash(ad, x) => var out := ExecuteSlash(s, ad, x);
    case _ =>
  }

  /** A position's voting power is its amount times the period multiplier exactly when that product
      fits an i128; below that the unchecked product of `execute_slash` wraps around. */
  lemma VotingPowerIsExactUnlessItWraps(s: State, u: Address)
    requires Reachable(s) && u in s.stakes
    ensures var exact := s.stakes[u].amount * s.stakes[u].period.Multiplier();
            VotingPower(s, u) == exact <==> exact >= I128_MIN
    ensures s.stakes[u].amount >= 0 ==> s.stakes[u].amount * s.stakes[u].period.Multiplier() >= I128_MIN
  {
    var p := s.stakes[u];
    PowersMatch(s, u);
    WeighIsProduct(p.period, p.amount);
    hide WrapI128, Reachable;
    WrapIsExactWhenItFits(p.period.Weigh(p.amount));
  }

  lemma PowersMatch(s: State, u: Address)
    requires Reachable(s) && u in s.stakes
    ensures PowerMatches(s.stakes[u])
  {
    ReachableStatesAreSound(s);
    assert UserSound(s, u);
  }

  lemma WeighIsProduct(period: Period, amount: int128)
    ensures period.Weigh(amount) == amount * period.Multiplier()
  {
  }

  // ----- the weighted start time of a top-up -----

  lemma ScaleUp(q: int, e: int, n: nat)
    requires q > e
    ensures q * n >= n * e + n
  {
    assert (q - e - 1) * n >= 0;
  }

  lemma QuotientAtMost(x: nat, n: nat, e: nat)
    requires n > 0 && x <= n * e
    ensures x / n <= e
  {
    FloorBounds(x, n);
    if x / n > e {
      ScaleUp(x / n, e, n);
      assert false;
    }
  }

  lemma SmallerFactor(a: nat, n: nat, e: nat)
    requires a <= n
    ensures 0 <= a * e <= n * e
  {
    assert (n - a) * e >= 0;
  }

  lemma FloorLosesLessThanOne(x: nat, n: nat)
    requires n > 0
    ensures 0 <= x - n * (x / n) < n
  {
    FloorBounds(x, n);
  }

  lemma SmallRemainder(q: nat, m: nat)
    requires q < m
    ensures q % m == q
  {
  }

  lemma ShareBounds(x: nat, n: nat, e: uint64)
    requires n > 0 && x <= n * e
    ensures x / n % (U64_MAX + 1) <= e
    ensures 0 <= x - n * (x / n % (U64_MAX + 1)) < n
  {
    QuotientAtMost(x, n, e);
    SmallRemainder(x / n, U64_MAX + 1);
    FloorLosesLessThanOne(x, n);
  }

  /** The kept share of the elapsed time never exceeds it, and loses less than one unit of the new
      amount when the product does not saturate. */
  lemma WeightBounds(amount: int128, elapsed: uint64, newAmount: int128)
    requires 0 <= amount <= newAmount && newAmount > 0
    ensures WeightedDuration(amount, elapsed, newAmount) <= elapsed
    ensures amount * elapsed <= U128_MAX ==>
              0 <= amount * elapsed - newAmount * WeightedDuration(amount, elapsed, newAmount) < newAmount
  {
    SmallerFactor(amount, newAmount, elapsed);
    ShareBounds(SatMulU128(amount, elapsed), newAmount, elapsed);
  }

  /** Topping up a non-negative stake moves the start time forward only, keeps it before the unlock
      time, and preserves the accumulated time weight up to less than one unit of the new amount. */
  lemma TopUpPreservesTimeWeight(s: State, user: Address, amount: int128)
    requires Reachable(s) && TopUp(s, user, amount).Ok?
    requires user in s.stakes && s.stakes[user].amount >= 0
    ensures user in TopUp(s, user, amount).value.stakes
    ensures var p, p' := s.stakes[user], TopUp(s, user, amount).value.stakes[user];
            var lost := p.amount * (s.now - p.startTime) - p'.amount * (s.now - p'.startTime);
            && p.startTime <= p'.startTime <= p'.unlockTime
            && (p.amount * (s.now - p.startTime) <= U128_MAX ==> 0 <= lost < p'.amount)
  {
    hide WeightedDuration;
    StartsAreSound(s, user);
    var p := s.stakes[user];
    WeightBounds(p.amount, s.now - p.startTime, p.amount + amount);
  }

  /** The time credited to a stake slashed below zero and topped up to `newAmount` after `elapsed` seconds:
      its amount is read as an unsigned 128-bit value, and the product saturates from two seconds on. */
  function WrappedCredit(amount: int128, elapsed: uint64, newAmount: int128): uint64
    requires amount < 0 < newAmount
  {
    (if elapsed == 1 then (U128_MAX + 1 + amount) / newAmount else U128_MAX / newAmount) % (U64_MAX + 1)
  }

  lemma NegativeStakesAreCreditedWrapped(amount: int128, elapsed: uint64, newAmount: int128)
    requires amount < 0 < newAmount && elapsed > 0
    ensures WeightedDuration(amount, elapsed, newAmount) == WrappedCredit(amount, elapsed, newAmount)
  {
    var a := AsU128(amount);
    if elapsed >= 2 {
      assert a * (elapsed - 2) >= 0;
      assert a * elapsed >= 2 * a > U128_MAX;
    }
  }

  /** A top-up moves the start time backward exactly when the stake is below zero and brought above it,
      some time has been served from a start time after zero, and the wrapped credit exceeds that time. */
  lemma TopUpMovesStartForward(s: State, user: Address, amount: int128)
    requires Reachable(s) && TopUp(s, user, amount).Ok? && user in s.stakes
    ensures FitsI128(s.stakes[user].amount + amount) && user in TopUp(s, user, amount).value.stakes
    ensures var p, p' := s.stakes[user], TopUp(s, user, amount).value.stakes[user];
            var elapsed := s.now - p.startTime;
            && p'.startTime <= p.unlockTime && elapsed >= 0
            && (p'.startTime < p.startTime <==>
                  && p.amount < 0 < p.amount + amount && elapsed > 0 && p.startTime > 0
                  && WrappedCredit(p.amount, elapsed, p.amount + amount) > elapsed)
  {
    hide WrappedCredit;
    StartsAreSound(s, user);
    var p := s.stakes[user];
    var elapsed := s.now - p.startTime;
    if p.amount >= 0 {
      WeightBounds(p.amount, elapsed, p.amount + amount);
    } else if p.amount + amount > 0 && elapsed > 0 {
      NegativeStakesAreCreditedWrapped(p.amount, elapsed, p.amount + amount);
    }
    if p.amount + amount <= 0 || elapsed == 0 {
      NothingIsCredited(p.amount, elapsed, p.amount + amount);
    }
    hide WeightedDuration;
  }

  lemma StartsAreSound(s: State, user: Address)
    requires Reachable(s) && user in s.stakes
    ensures s.stakes[user].startTime <= s.stakes[user].unlockTime && s.stakes[user].startTime <= s.now
  {
    ReachableStatesAreSound(s);
    assert UserSound(s, user);
  }

  lemma NothingIsCredited(amount: int128, elapsed: uint64, newAmount: int128)
    requires newAmount <= 0 || elapsed == 0
    ensures WeightedDuration(amount, elapsed, newAmount) == 0
  {
  }
}
