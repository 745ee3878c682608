/** The staking contract performing its entry points in place, each proved against its transition. */
module StakingContract {
  import opened Common
  import opened Tokens
  import opened Staking

  /** The deployed contract: the storage entries it updates in place. */
  class Contract {
    const self: Address
    const token: Address
    var admin: Address
    var noticePeriod: uint64
    var stakes: map<Address, Position>
    var unbonding: map<Address, Unbonding>
    var totalStaked: int128
    var stakers: seq<Address>
    var notices: map<Address, Notice>
    var ledger: Ledger
    var now: uint64
    ghost var deposited: map<Address, nat>
    ghost var claimed: map<Address, nat>
    ghost var openings: map<Address, Opening>
    ghost var unbondingOpenings: map<Address, Opening>

    ghost function View(): State
      reads this
    {
      State(self, token, admin, noticePeriod, stakes, unbonding, totalStaked, stakers, notices, ledger, now,
            deposited, claimed, openings, unbondingOpenings)
    }

    constructor (self: Address, token: Address, admin: Address, ledger: Ledger, now: uint64)
      ensures View() == Init(self, token, admin, ledger, now)
    {
      this.self, this.token, this.admin, this.ledger, this.now := self, token, admin, ledger, now;
      noticePeriod, stakes, unbonding, totalStaked, stakers, notices := 86400, map[], map[], 0, [], map[];
      deposited, claimed, openings, unbondingOpenings := map[], map[], map[], map[];
    }

    /** The loop that rebuilds the staker list without `user`. */
    method StakersWithout(user: Address) returns (updated: seq<Address>)
      ensures updated == Without(stakers, user)
    {
      updated := [];
      for i := 0 to |stakers|
        invariant updated == Without(stakers[..i], user)
      {
        assert stakers[..i + 1][..i] == stakers[..i];
        if stakers[i] != user {
          updated := updated + [stakers[i]];
        }
      }
      assert stakers[..|stakers|] == stakers;
    }

    method StorePositions(positions: map<Address, Position>, list: seq<Address>, total: int128)
      modifies this`stakes, this`stakers, this`totalStaked
      ensures View() == old(View()).(stakes := positions, stakers := list, totalStaked := total)
    {
      stakes, stakers, totalStaked := positions, list, total;
    }

    method StoreUnbonding(positions: map<Address, Unbonding>, ghost starts: map<Address, Opening>)
      modifies this`unbonding, this`unbondingOpenings
      ensures View() == old(View()).(unbonding := positions, unbondingOpenings := starts)
    {
      unbonding := positions;
      unbondingOpenings := starts;
    }

    /** The transfer in, noted as the user's deposit. */
    method Receive(paid: Ledger, user: Address, amount: nat)
      modifies this`ledger, this`deposited
      ensures View() == old(View()).(ledger := paid, deposited := old(deposited)[user := Of(old(deposited), user) + amount])
    {
      ledger := paid;
      deposited := deposited[user := Of(deposited, user) + amount];
    }

    method Stake(user: Address, amount: int128, months: uint32, sequence: uint32) returns (r: Result<(), StakingError>)
      modifies this
      ensures Committed(old(View()), Staking.Stake(old(View()), user, amount, months, sequence), View(), r)
    {
      hide OpenPosition, HostTransfer;
      :- Need(user != self, Unauthorized);
      :- Need(amount >= MIN_STAKE_AMOUNT, InvalidAmount);
      var parsed := FromMonths(months);
      :- Need(parsed.Some?, InvalidPeriod);
      :- Need(user !in stakes, AlreadyStaked);
      var paid := HostTransfer(ledger, token, user, self, amount);
      :- Need(paid.Some?, HostTrap);
      var position :- OpenPosition(amount, parsed.value, now, sequence);
      :- Need(FitsI128(totalStaked + amount), Overflow);
      Receive(paid.value, user, amount);
      StorePositions(stakes[user := position], stakers + [user], totalStaked + amount);
      openings := openings[user := Opening(now, parsed.value)];
      return Ok(());
    }

    method Unstake(user: Address) returns (r: Result<(), StakingError>)
      modifies this
      ensures Committed(old(View()), Staking.Unstake(old(View()), user), View(), r)
    {
      hide Without;
      :- Need(user != self, Unauthorized);
      :- Need(user in stakes, NoActiveStake);
      var position := stakes[user];
      :- Need(now >= position.unlockTime, StakeNotUnlocked);
      :- Need(now + UNBONDING_PERIOD_SECONDS <= U64_MAX, Overflow);
      :- Need(FitsI128(totalStaked - position.amount), InsufficientBalance);
      StoreUnbonding(unbonding[user := Unbonding(position.amount, now, now + UNBONDING_PERIOD_SECONDS)],
                     if user in openings then unbondingOpenings[user := openings[user]] else unbondingOpenings);
      var list := StakersWithout(user);
      StorePositions(stakes - {user}, list, totalStaked - position.amount);
      openings := openings - {user};
      return Ok(());
    }

    method Claim(user: Address) returns (r: Result<(), StakingError>)
      modifies this
      ensures Committed(old(View()), Staking.Claim(old(View()), user), View(), r)
    {
      if user == self {
        return Err(Unauthorized);
      }
      :- Need(user in unbonding, NoUnbondingPosition);
      var position := unbonding[user];
      :- Need(now >= position.claimableTime, UnbondingNotComplete);
      :- Need(Balance(ledger, token, self) >= position.amount, InsufficientContractBalance);
      var paid := HostTransfer(ledger, token, self, user, position.amount);
      :- Need(paid.Some?, HostTrap);
      ledger := paid.value;
      claimed := claimed[user := Of(claimed, user) + position.amount];
      StoreUnbonding(unbonding - {user}, unbondingOpenings - {user});
      return Ok(());
    }

    method Slash(caller: Address, user: Address, shortfall: int128) returns (r: Result<int128, StakingError>)
      modifies this
      ensures Committed(old(View()), Staking.Slash(old(View()), caller, user, shortfall), View(),
                        if r.Ok? then Ok(()) else Err(r.error))
      ensures r.Ok? ==> user in old(stakes) && r.value == SlashAmount(old(stakes)[user], shortfall)
    {
      if caller != admin {
        return Err(Unauthorized);
      }
      :- Need(user in stakes, NoActiveStake);
      :- Need(shortfall > 0, InvalidAmount);
      var position := stakes[user];
      var cut := if shortfall >= position.amount then position.amount else shortfall;
      var rest: int128 := position.amount - cut;
      var power := CheckedPower(rest, position.period);
      :- Need(power.Some?, Overflow);
      :- Need(FitsI128(totalStaked - cut), InsufficientBalance);
      if rest == 0 {
        var list := StakersWithout(user);
        StorePositions(stakes - {user}, list, totalStaked - cut);
        openings := openings - {user};
      } else {
        StorePositions(stakes[user := position.(amount := rest, votingPower := power.value)], stakers, totalStaked - cut);
      }
      return Ok(cut);
    }

    method TopUp(user: Address, amount: int128) returns (r: Result<(), StakingError>)
      modifies this
      ensures Committed(old(View()), Staking.TopUp(old(View()), user, amount), View(), r)
    {
      if user == self {
        return Err(Unauthorized);
      }
      :- Need(amount > 0, InvalidAmount);
      :- Need(user in stakes, NoActiveStake);
      var position := stakes[user];
      :- Need(now <= position.unlockTime, StakeNotUnlocked);
      var paid := HostTransfer(ledger, token, user, self, amount);
      :- Need(paid.Some?, HostTrap);
      :- Need(FitsI128(position.amount + amount), Overflow);
      var newAmount: int128 := position.amount + amount;
      var power := CheckedPower(newAmount, position.period);
      :- Need(power.Some?, Overflow);
      :- Need(FitsI128(totalStaked + amount), Overflow);
      hide WeightedDuration, CheckedPower, HostTransfer;
      var elapsed := SatSub(now, position.startTime);
      var weighted := WeightedDuration(position.amount, elapsed, newAmount);
      Receive(paid.value, user, amount);
      var moved := position.(amount := newAmount, startTime := SatSub(now, weighted), votingPower := power.value);
      StorePositions(stakes[user := moved], stakers, totalStaked + amount);
      return Ok(());
    }

    method CreateSlashNotice(caller: Address, user: Address, amount: int128) returns (r: Result<(), StakingError>)
      modifies this
      ensures Committed(old(View()), Staking.CreateSlashNotice(old(View()), caller, user, amount), View(), r)
    {
      if caller != admin {
        return Err(Unauthorized);
      }
      :- Need(amount > 0, InvalidAmount);
      :- Need(user in stakes, NoActiveStake);
      :- Need(amount <= stakes[user].amount, InvalidAmount);
      :- Need(user !in notices, SlashNoticePeriodActive);
      :- Need(now + noticePeriod <= U64_MAX, Overflow);
      notices := notices[user := Notice(amount, now + noticePeriod, caller)];
      return Ok(());
    }

    method CancelSlash(caller: Address, user: Address) returns (r: Result<(), StakingError>)
      modifies this
      ensures Committed(old(View()), Staking.CancelSlash(old(View()), caller, user), View(), r)
    {
      if caller != admin {
        return Err(Unauthorized);
      }
      :- Need(user in notices, NoActiveSlashNotice);
      :- Need(now < notices[user].until, SlashNoticeExpired);
      notices := notices - {user};
      return Ok(());
    }

    method ExecuteSlash(caller: Address, user: Address) returns (r: Result<(), StakingError>)
      modifies this
      ensures Committed(old(View()), Staking.ExecuteSlash(old(View()), caller, user), View(), r)
    {
      if caller != admin {
        return Err(Unauthorized);
      }
      :- Need(user in notices, NoActiveSlashNotice);
      var notice := notices[user];
      :- Need(now >= notice.until, SlashNoticePeriodActive);
      :- Need(user in stakes, NoActiveStake);
      var position := stakes[user];
      :- Need(FitsI128(position.amount - notice.amount), InvalidAmount);
      :- Need(FitsI128(totalStaked - notice.amount), InvalidAmount);
      var rest := position.amount - notice.amount;
      stakes := stakes[user := position.(amount := rest, votingPower := WrapI128(position.period.Weigh(rest)))];
      totalStaked := totalStaked - notice.amount;
      notices := notices - {user};
      return Ok(());
    }
  }
}
