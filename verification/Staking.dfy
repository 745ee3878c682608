/** Staking, unbonding and slashing (packages/staking/src/contract.rs): each entry point as a storage
    transition. */
module Staking {
  import opened Common
  import opened Tokens

  const UNBONDING_PERIOD_SECONDS := 14 * 24 * 60 * 60
  const MIN_STAKE_AMOUNT := 1_000_0000

  datatype Period = OneMonth | ThreeMonths | SixMonths | TwelveMonths {
    function Multiplier(): nat {
      match this
      case OneMonth => 1
      case ThreeMonths => 2
      case SixMonths => 3
      case TwelveMonths => 5
    }

    /** `amount` times the multiplier. */
    function Weigh(amount: int): int {
      match this
      case OneMonth => amount
      case ThreeMonths => 2 * amount
      case SixMonths => 3 * amount
      case TwelveMonths => 5 * amount
    }

    function Seconds(): uint64 {
      match this
      case OneMonth => 30 * 24 * 60 * 60
      case ThreeMonths => 90 * 24 * 60 * 60
      case SixMonths => 180 * 24 * 60 * 60
      case TwelveMonths => 360 * 24 * 60 * 60
    }
  }

  function FromMonths(months: uint32): Option<Period> {
    match months
    case 1 => Some(OneMonth)
    case 3 => Some(ThreeMonths)
    case 6 => Some(SixMonths)
    case 12 => Some(TwelveMonths)
    case _ => None
  }

  datatype Position = Position(
    amount: int128,
    period: Period,
    startTime: uint64,
    unlockTime: uint64,
    votingPower: int128,
    startLedger: uint32,
    unlockLedger: uint32)

  datatype Unbonding = Unbonding(amount: int128, startTime: uint64, claimableTime: uint64)

  datatype Notice = Notice(amount: int128, until: uint64, executor: Address)

  datatype StakingError =
    | Unauthorized
    | InvalidAmount
    | InvalidPeriod
    | InsufficientBalance
    | NoActiveStake
    | StakeNotUnlocked
    | UnbondingNotComplete
    | NoUnbondingPosition
    | AlreadyStaked
    | Overflow
    | InsufficientContractBalance
    | SlashNoticePeriodActive
    | NoActiveSlashNotice
    | SlashNoticeExpired
    | HostTrap

  /** When, and for which period, the `stake` call behind a position was made. */
  datatype Opening = Opening(time: uint64, period: Period)

  /** Storage, the token balances around it, the ledger clock, and the history of each user: what was
      paid in, what was paid out, and the openings of the current positions. */
  datatype State = State(
    self: Address,
    token: Address,
    admin: Address,
    noticePeriod: uint64,
    stakes: map<Address, Position>,
    unbonding: map<Address, Unbonding>,
    totalStaked: int128,
    stakers: seq<Address>,
    notices: map<Address, Notice>,
    ledger: Ledger,
    now: uint64,
    deposited: map<Address, nat>,
    claimed: map<Address, nat>,
    openings: map<Address, Opening>,
    unbondingOpenings: map<Address, Opening>)

  function Init(self: Address, token: Address, admin: Address, ledger: Ledger, now: uint64): State {
    State(self, token, admin, 86400, map[], map[], 0, [], map[], ledger, now, map[], map[], map[], map[])
  }

  function Of(m: map<Address, nat>, u: Address): nat {
    if u in m then m[u] else 0
  }

  /** The voting power of `amount` staked for `period`, or nothing when the product overflows. */
  function CheckedPower(amount: int128, period: Period): Option<int128> {
    if FitsI128(period.Weigh(amount)) then Some(period.Weigh(amount)) else None
  }

  /** The position a stake opens at time `now` and ledger `sequence`. */
  function OpenPosition(amount: int128, period: Period, now: uint64, sequence: uint32): Result<Position, StakingError> {
    var power := CheckedPower(amount, period);
    if power.None? then Err(Overflow) else
    if now + period.Seconds() > U64_MAX then Err(Overflow) else
    if sequence + period.Seconds() / 5 > U32_MAX then Err(Overflow) else
    Ok(Position(amount, period, now, now + period.Seconds(), power.value, sequence, sequence + period.Seconds() / 5))
  }

  function Stake(s: State, user: Address, amount: int128, months: uint32, sequence: uint32): Result<State, StakingError> {
    if user == s.self then Err(Unauthorized) else
    if amount < MIN_STAKE_AMOUNT then Err(InvalidAmount) else
    if FromMonths(months).None? then Err(InvalidPeriod) else
    var period := FromMonths(months).value;
    if user in s.stakes then Err(AlreadyStaked) else
    var paid := HostTransfer(s.ledger, s.token, user, s.self, amount);
    if paid.None? then Err(HostTrap) else
    var position :- OpenPosition(amount, period, s.now, sequence);
    if !FitsI128(s.totalStaked + amount) then Err(Overflow) else
    Ok(s.(stakes := s.stakes[user := position],
          totalStaked := s.totalStaked + amount,
          stakers := s.stakers + [user],
          ledger := paid.value,
          deposited := s.deposited[user := Of(s.deposited, user) + amount],
          openings := s.openings[user := Opening(s.now, period)]))
  }

  function Unstake(s: State, user: Address): Result<State, StakingError> {
    if user == s.self then Err(Unauthorized) else
    if user !in s.stakes then Err(NoActiveStake) else
    var position := s.stakes[user];
    if s.now < position.unlockTime then Err(StakeNotUnlocked) else
    if s.now + UNBONDING_PERIOD_SECONDS > U64_MAX then Err(Overflow) else
    if !FitsI128(s.totalStaked - position.amount) then Err(InsufficientBalance) else
    Ok(s.(unbonding := s.unbonding[user := Unbonding(position.amount, s.now, s.now + UNBONDING_PERIOD_SECONDS)],
          stakes := s.stakes - {user},
          stakers := Without(s.stakers, user),
          totalStaked := s.totalStaked - position.amount,
          openings := s.openings - {user},
          unbondingOpenings := if user in s.openings then s.unbondingOpenings[user := s.openings[user]] else s.unbondingOpenings))
  }

  function Claim(s: State, user: Address): Result<State, StakingError> {
    if user == s.self then Err(Unauthorized) else
    if user !in s.unbonding then Err(NoUnbondingPosition) else
    var position := s.unbonding[user];
    if s.now < position.claimableTime then Err(UnbondingNotComplete) else
    if Balance(s.ledger, s.token, s.self) < position.amount then Err(InsufficientContractBalance) else
    var paid := HostTransfer(s.ledger, s.token, s.self, user, position.amount);
    if paid.None? then Err(HostTrap) else
    Ok(s.(unbonding := s.unbonding - {user},
          ledger := paid.value,
          claimed := s.claimed[user := Of(s.claimed, user) + position.amount],
          unbondingOpenings := s.unbondingOpenings - {user}))
  }

  function SlashAmount(position: Position, shortfall: int128): int128 {
    if shortfall >= position.amount then position.amount else shortfall
  }

  function Slash(s: State, admin: Address, user: Address, shortfall: int128): Result<State, StakingError> {
    if admin != s.admin then Err(Unauthorized) else
    if user !in s.stakes then Err(NoActiveStake) else
    if shortfall <= 0 then Err(InvalidAmount) else
    var position := s.stakes[user];
    var cut := SlashAmount(position, shortfall);
    var rest: int128 := position.amount - cut;
    var power := CheckedPower(rest, position.period);
    if power.None? then Err(Overflow) else
    if !FitsI128(s.totalStaked - cut) then Err(InsufficientBalance) else
    var s1 := s.(totalStaked := s.totalStaked - cut);
    if rest == 0
    then Ok(s1.(stakes := s.stakes - {user}, stakers := Without(s.stakers, user), openings := s.openings - {user}))
    else Ok(s1.(stakes := s.stakes[user := position.(amount := rest, votingPower := power.value)]))
  }

  /** The share of the elapsed time that a topped-up stake keeps, in the source's saturating u128
      arithmetic and its final cast to u64. */
  function WeightedDuration(amount: int128, elapsed: uint64, newAmount: int128): uint64 {
    if newAmount > 0 then SatMulU128(AsU128(amount), elapsed) / newAmount % (U64_MAX + 1) else 0
  }

  function TopUp(s: State, user: Address, amount: int128): Result<State, StakingError> {
    if user == s.self then Err(Unauthorized) else
    if amount <= 0 then Err(InvalidAmount) else
    if user !in s.stakes then Err(NoActiveStake) else
    var position := s.stakes[user];
    if s.now > position.unlockTime then Err(StakeNotUnlocked) else
    var paid := HostTransfer(s.ledger, s.token, user, s.self, amount);
    if paid.None? then Err(HostTrap) else
    if !FitsI128(position.amount + amount) then Err(Overflow) else
    var newAmount := position.amount + amount;
    var power := CheckedPower(newAmount, position.period);
    if power.None? then Err(Overflow) else
    if !FitsI128(s.totalStaked + amount) then Err(Overflow) else
    var elapsed := SatSub(s.now, position.startTime);
    var start := SatSub(s.now, WeightedDuration(position.amount, elapsed, newAmount));
    Ok(s.(stakes := s.stakes[user := position.(amount := newAmount, startTime := start, votingPower := power.value)],
          totalStaked := s.totalStaked + amount,
          ledger := paid.value,
          deposited := s.deposited[user := Of(s.deposited, user) + amount]))
  }

  function SetNoticePeriod(s: State, admin: Address, seconds: uint64): Result<State, StakingError> {
    if admin != s.admin then Err(Unauthorized) else
    Ok(s.(noticePeriod := seconds))
  }

  function CreateSlashNotice(s: State, admin: Address, user: Address, amount: int128): Result<State, StakingError> {
    if admin != s.admin then Err(Unauthorized) else
    if amount <= 0 then Err(InvalidAmount) else
    if user !in s.stakes then Err(NoActiveStake) else
    if amount > s.stakes[user].amount then Err(InvalidAmount) else
    if user in s.notices then Err(SlashNoticePeriodActive) else
    if s.now + s.noticePeriod > U64_MAX then Err(Overflow) else
    Ok(s.(notices := s.notices[user := Notice(amount, s.now + s.noticePeriod, admin)]))
  }

  function CancelSlash(s: State, admin: Address, user: Address): Result<State, StakingError> {
    if admin != s.admin then Err(Unauthorized) else
    if user !in s.notices then Err(NoActiveSlashNotice) else
    if s.now >= s.notices[user].until then Err(SlashNoticeExpired) else
    Ok(s.(notices := s.notices - {user}))
  }

  function ExecuteSlash(s: State, admin: Address, user: Address): Result<State, StakingError> {
    if admin != s.admin then Err(Unauthorized) else
    if user !in s.notices then Err(NoActiveSlashNotice) else
    if s.now < s.notices[user].until then Err(SlashNoticePeriodActive) else
    var cut := s.notices[user].amount;
    if user !in s.stakes then Err(NoActiveStake) else
    var position := s.stakes[user];
    var rest := position.amount - cut;
    if !FitsI128(rest) then Err(InvalidAmount) else
    if !FitsI128(s.totalStaked - cut) then Err(InvalidAmount) else
    Ok(s.(stakes := s.stakes[user := position.(amount := rest, votingPower := WrapI128(position.period.Weigh(rest)))],
          totalStaked := s.totalStaked - cut,
          notices := s.notices - {user}))
  }

  function UpdateAdmin(s: State, admin: Address, newAdmin: Address): Result<State, StakingError> {
    if admin != s.admin then Err(Unauthorized) else
    Ok(s.(admin := newAdmin))
  }

  function VotingPower(s: State, user: Address): int128 {
    if user in s.stakes then s.stakes[user].votingPower else 0
  }

  datatype Call =
    | CallStake(user: Address, amount: int128, months: uint32, sequence: uint32)
    | CallUnstake(user: Address)
    | CallClaim(user: Address)
    | CallSlash(admin: Address, user: Address, shortfall: int128)
    | CallTopUp(user: Address, amount: int128)
    | CallSetNoticePeriod(admin: Address, seconds: uint64)
    | CallCreateNotice(admin: Address, user: Address, amount: int128)
    | CallCancelSlash(admin: Address, user: Address)
    | CallExecuteSlash(admin: Address, user: Address)
    | CallUpdateAdmin(admin: Address, newAdmin: Address)
    | Tick(elapsed: nat)
    | Elsewhere(from: Address, to: Address, tokens: nat)
    | Mint(to: Address, tokens: nat)

  /** The outcome of one call. Moving the clock and foreign token transfers never fail. */
  function Outcome(s: State, c: Call): Result<State, StakingError> {
    match c
    case CallStake(u, a, m, q) => Stake(s, u, a, m, q)
    case CallUnstake(u) => Unstake(s, u)
    case CallClaim(u) => Claim(s, u)
    case CallSlash(ad, u, f) => Slash(s, ad, u, f)
    case CallTopUp(u, a) => TopUp(s, u, a)
    case CallSetNoticePeriod(ad, p) => SetNoticePeriod(s, ad, p)
    case CallCreateNotice(ad, u, a) => CreateSlashNotice(s, ad, u, a)
    case CallCancelSlash(ad, u) => CancelSlash(s, ad, u)
    case CallExecuteSlash(ad, u) => ExecuteSlash(s, ad, u)
    case CallUpdateAdmin(ad, n) => UpdateAdmin(s, ad, n)
    case Tick(d) => Ok(if s.now + d <= U64_MAX then s.(now := s.now + d) else s)
    case Elsewhere(from, to, a) =>
      Ok(if from != s.self && a <= Balance(s.ledger, s.token, from)
         then s.(ledger := Moved(s.ledger, s.token, from, to, a)) else s)
    case Mint(to, a) => Ok(s.(ledger := Credit(s.ledger, s.token, to, a)))
  }

  function Run(s: State, calls: seq<Call>): State {
    if calls == [] then s
    else
      var before := Run(s, calls[..|calls| - 1]);
      Settled(before, Outcome(before, calls[|calls| - 1]))
  }
}
