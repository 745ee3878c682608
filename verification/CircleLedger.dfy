/** Money over whole runs: which circles never pay out more than their pools. */
module CircleLedger {
  import opened Common
  import opened SafeMath
  import opened Vrf
  import opened CircleTypes
  import opened Payout
  import opened CircleOps
  import opened CircleInvariant
  import opened CircleSettlement
  import opened CircleProofs
  import opened CircleRefunds
  import opened CircleRuns
  import opened CircleConservation

  /** With this fixed contribution, weights fit whatever the clock shows. */
  const MODEST_CONTRIBUTION := U64_MAX / 100

  /** With this one, products of net amounts and weights fit as well. */
  const SMALL_CONTRIBUTION := 0x1_0000_0000 / 10

  // ----- modest weights -----

  lemma WeightIsModest(c: Contribution, now: uint64)
    requires c.amount >= 0
    ensures WeightOf(c, now) <= c.amount * U64_MAX
  {
    hide SatMulU128;
    var elapsed := SatSub(now, c.timestamp);
    MulMonotone(elapsed, U64_MAX, c.amount);
    assert SatMulU128(c.amount, elapsed) <= c.amount * elapsed;
  }

  lemma MulMonotone(a: int, b: int, k: nat)
    requires a <= b
    ensures k * a <= k * b
  {
  }

  lemma {:induction false} ModestSum(members: seq<Member>, of: map<Address, uint128>, each: nat, i: nat)
    requires i <= |members| && forall a :: a in of ==> of[a] <= each
    ensures WeightUpTo(members, of, i) <= i * each
  {
    if i > 0 {
      ModestSum(members, of, each, i - 1);
      assert i * each == (i - 1) * each + each;
    }
  }

  lemma EachWeightIsModest(s: Storage)
    requires LogSound(s)
    ensures forall a :: a in RoundWeights(s).of ==> RoundWeights(s).of[a] <= s.circle.contributionAmount * U64_MAX
  {
    hide CachesMatch, Weigh, WeightOf;
    WeighIsExactUpToSaturation(s.contributions, s.circle.currentRound, s.now);
    forall a | a in RoundWeights(s).of
      ensures RoundWeights(s).of[a] <= s.circle.contributionAmount * U64_MAX
    {
      var i :| 0 <= i < |s.contributions| && s.contributions[i].member == a && s.contributions[i].round == s.circle.currentRound;
      WeightIsModest(s.contributions[i], s.now);
    }
  }

  /** A contribution of at most a hundredth of the u64 range keeps the weights of every round in range. */
  lemma ModestWeightsFit(s: Storage)
    requires SeatsSound(s) && LogSound(s) && s.circle.contributionAmount <= MODEST_CONTRIBUTION
    ensures WeightsFit(s)
  {
    EachWeightIsModest(s);
    WeightsOfSoundState(s);
    var amount := s.circle.contributionAmount;
    hide SeatsSound, LogSound, RoundWeights;
    ModestSum(s.members, RoundWeights(s).of, amount * U64_MAX, |s.members|);
    assert |s.members| * (amount * U64_MAX) <= 100 * (amount * U64_MAX) by { MulMonotone(|s.members|, 100, amount * U64_MAX); }
  }

  lemma {:induction false} PoolIsAtMost(members: seq<Member>, log: seq<Contribution>, round: uint32, amount: int128)
    requires Seated(members) && amount >= 0
    requires Distinct(ScanContributors(log, round)) && forall a :: a in ScanContributors(log, round) ==> HasMember(members, a)
    ensures |ScanContributors(log, round)| * amount <= |members| * amount
  {
    var list := ScanContributors(log, round);
    DistinctMembersAreFew(members, list);
    MulMonotone(|list|, |members|, amount);
  }

  lemma NobodySits(a: Address)
    ensures !HasMember([], a)
  {
  }

  /** Distinct members are at most as many as there are seats. */
  lemma {:induction false} DistinctMembersAreFew(members: seq<Member>, list: seq<Address>)
    requires Distinct(list) && forall a :: a in list ==> HasMember(members, a)
    ensures |list| <= |members|
  {
    if members == [] {
      if list != [] {
        NobodySits(list[0]);
        assert false;
      }
    } else {
      var n := |members| - 1;
      var rest := Without(list, members[n].address);
      WithoutMembers(list, members[n].address);
      WithoutDistinct(list, members[n].address);
      forall a | a in rest
        ensures HasMember(members[..n], a)
      {
        var i :| 0 <= i < |members| && members[i].address == a;
        assert members[..n][i].address == a;
      }
      DistinctMembersAreFew(members[..n], rest);
    }
  }

  /** A smaller contribution keeps the products in range too: dust stays below the number of contributors. */
  lemma SmallProductsFit(s: Storage, net: nat)
    requires SeatsSound(s) && LogSound(s) && s.circle.contributionAmount <= SMALL_CONTRIBUTION
    requires net <= ScanTotal(s.contributions, s.circle.currentRound)
    ensures forall a :: a in RoundWeights(s).of ==> net * RoundWeights(s).of[a] <= U128_MAX
  {
    EachWeightIsModest(s);
    PoolIsModest(s);
    var amount, of := s.circle.contributionAmount, RoundWeights(s).of;
    hide SeatsSound, LogSound, RoundWeights;
    forall a | a in of
      ensures net * of[a] <= U128_MAX
    {
      ProductFits(net, of[a], amount);
    }
  }

  lemma PoolIsModest(s: Storage)
    requires SeatsSound(s) && LogSound(s)
    ensures ScanTotal(s.contributions, s.circle.currentRound) <= 100 * s.circle.contributionAmount
  {
    var round, amount := s.circle.currentRound, s.circle.contributionAmount;
    hide CachesMatch;
    ScanDistinct(s.contributions, round);
    ScanTotalIsCount(s.contributions, round, amount);
    forall a | a in ScanContributors(s.contributions, round)
      ensures HasMember(s.members, a)
    {
      ScanIsContributed(s.contributions, round, a);
      var i :| 0 <= i < |s.contributions| && s.contributions[i].member == a;
    }
    PoolIsAtMost(s.members, s.contributions, round, amount);
    MulMonotone(|s.members|, 100, amount);
  }

  lemma ProductFits(net: nat, w: nat, amount: nat)
    requires net <= 100 * amount && w <= amount * U64_MAX && amount <= SMALL_CONTRIBUTION
    ensures net * w <= U128_MAX
  {
    MulMonotone(net, 100 * SMALL_CONTRIBUTION, w);
    MulMonotone(w, SMALL_CONTRIBUTION * U64_MAX, 100 * SMALL_CONTRIBUTION);
  }

  // ----- one settled round -----

  /** The net amount of the current round's pool at the current fee, if it can be computed. */
  function NetNow(s: Storage): int128 {
    match ApplyFee(RoundTotal(s, s.circle.currentRound), s.feeBps)
    case Ok(split) => split.net
    case Err(_) => 0
  }

  /** What a caller can tell before settling: the round will pay out more than its net amount. */
  ghost predicate WillOverpay(s: Storage) {
    s.circle.payoutType == Random && NetNow(s) > 0 && Overpays(s, NetNow(s))
  }

  lemma NothingIsShared(s: Storage, x: Settlement)
    requires x.net > 0 && s.circle.payoutType != Random
    ensures SharedNow(s, x).Ok? && SharedNow(s, x).value.distributed == 0
  {
  }

  lemma TriggerPays(hash: Hash, s: Storage, round: uint32, yieldOk: bool, hostOk: bool) returns (x: Settlement)
    requires Inv(s) && TriggerInternal(hash, s, round, yieldOk, hostOk).Ok?
    ensures round == s.circle.currentRound
    ensures TriggerInternal(hash, s, round, yieldOk, hostOk).value.history.settlements == s.history.settlements + [x]
    ensures x.pool == RoundTotal(s, round) && SettlementSound(x) && PaysShares(s, x)
    ensures x.net == Max(0, NetNow(s)) && (x.paid == x.net <==> !WillOverpay(s))
  {
    hide MarksSound, VrfSound, BooksSound, BidsSound, SeatsSound, LogSound, Resolved, Shared, TriggerInternal, RoundTotal,
         HandedUpTo, PaysShares, Overpays;
    var k;
    k, x := TriggerSettles(hash, s, round, yieldOk, hostOk);
    PoolIsScanned(s, round);
    if x.net > 0 && s.circle.payoutType == Random {
      OverpaysExactlyWhenSaturated(s, x);
    } else if x.net > 0 {
      NothingIsShared(s, x);
      PaysItsShares(s, x);
    }
  }

  lemma PaysItsShares(s: Storage, x: Settlement)
    requires x.net > 0 && PaysShares(s, x)
    ensures SharedNow(s, x).Ok? && x.paid == Max(x.net, SharedNow(s, x).value.distributed)
  {
  }

  /** A settled round of a reachable random circle pays more than its net amount exactly when saturated
      weights say so. When the weights fit it pays exactly that, and when the products fit too, the dust is
      less than the number of contributors with weight. */
  lemma RandomRoundsPayByWeight(hash: Hash, s: Storage, round: uint32, yieldOk: bool, hostOk: bool) returns (x: Settlement)
    requires Reachable(hash, s) && s.circle.payoutType == Random && TriggerInternal(hash, s, round, yieldOk, hostOk).Ok?
    ensures TriggerInternal(hash, s, round, yieldOk, hostOk).value.history.settlements == s.history.settlements + [x]
    ensures x.pool == RoundTotal(s, round) && x.net == Max(0, NetNow(s)) <= x.paid
    ensures x.paid > x.net <==> x.net > 0 && Overpays(s, x.net)
    ensures x.net > 0 && WeightsFit(s) ==> x.paid == x.net && 0 <= Dust(s, x.net) <= x.net
    ensures x.net > 0 && WeightsFit(s) && RoundWeights(s).total > 0
            && (forall a :: a in RoundWeights(s).of ==> x.net * RoundWeights(s).of[a] <= U128_MAX) ==>
              Dust(s, x.net) < WeightyContributors(s)
  {
    ReachableStatesAreSound(hash, s);
    x := TriggerPays(hash, s, round, yieldOk, hostOk);
    hide Reachable, MarksSound, VrfSound, BooksSound, BidsSound, SeatsSound, LogSound, Resolved, Shared, TriggerInternal, RoundTotal,
         RoundWeights, HandedUpTo, PositiveUpTo, SumMap, PaysShares, Overpays, WeightsFit;
    if x.net > 0 && WeightsFit(s) {
      SplitConserves(s, x);
    }
  }

  /** In a circle with a small contribution weights and products always fit. */
  lemma SmallContributionsFit(hash: Hash, s: Storage)
    requires Reachable(hash, s) && s.circle.contributionAmount <= SMALL_CONTRIBUTION
    ensures WeightsFit(s)
    ensures forall a :: a in RoundWeights(s).of ==> NetNow(s) * RoundWeights(s).of[a] <= U128_MAX
  {
    ReachableStatesAreSound(hash, s);
    ModestWeightsFit(s);
    PoolIsScanned(s, s.circle.currentRound);
    FeeSplitsAmount(RoundTotal(s, s.circle.currentRound), s.feeBps);
    hide Reachable, MarksSound, VrfSound, BooksSound, BidsSound, SeatsSound, LogSound, RoundTotal, RoundWeights, WeightsFit;
    SmallProductsFit(s, NetNow(s));
  }

  // ----- whole runs -----

  predicate Settling(c: Call) {
    c.CallTrigger? || c.CallDeadline?
  }

  lemma OthersSettleNothing(hash: Hash, s: Storage, c: Call)
    requires !Settling(c)
    ensures Settled(s, Outcome(hash, s, c)).history.settlements == s.history.settlements
  {
    hide MarkStatus, Penalize, CheckedStatus, RefundDrain, AsRefunds, BidsOutside, CancelRefund, InviteUpTo, WithDeparted, WithReported,
         ReportUpTo, IsInactiveMember, IsActiveMember, HasBid, AnyBid, BatchUpTo, DutchPrice, Admitted, TriggerInternal,
         CheckContributionDeadline, TriggerPayout, VotePayout, CancelCircle, RaiseDispute, ResolveDispute;
    if IsSetting(c) {
      SettingSettlesNothing(hash, s, c);
    } else if c.CallReport? && ReportUpTo(s, c.member, c.round, |s.members|).Ok? {
      ReportUpToIsQuiet(s, c.member, c.round, |s.members|);
    } else if c.CallBatch? && |c.recipients| == |c.amounts| && BatchUpTo(s, c.recipients, c.amounts, |c.recipients|).Ok? {
      BatchSettlesNothing(s, c.recipients, c.amounts, |c.recipients|);
    }
  }

  lemma SettingSettlesNothing(hash: Hash, s: Storage, c: Call)
    requires IsSetting(c)
    ensures Settled(s, Outcome(hash, s, c)).history.settlements == s.history.settlements
  {
    hide Outcome, SameSeats, NoNewStanding, BallotsGrow, StrangersGrow;
    if Outcome(hash, s, c).Ok? {
      SettingStands(hash, s, c);
    }
  }

  lemma {:induction false} BatchSettlesNothing(s: Storage, recipients: seq<Address>, amounts: seq<int128>, i: nat)
    requires i <= |recipients| == |amounts| && BatchUpTo(s, recipients, amounts, i).Ok?
    ensures BatchUpTo(s, recipients, amounts, i).value.history.settlements == s.history.settlements
  {
    if i > 0 {
      hide BatchFee, BatchNet, IndexOfMember;
      BatchSettlesNothing(s, recipients, amounts, i - 1);
    }
  }

  /** The strikes of a sweep change no address, so they change nothing about the split. */
  lemma SweepingKeepsSplit(s: Storage)
    ensures WillOverpay(Swept(s, s.circle.currentRound)) <==> WillOverpay(s)
  {
    var w := Swept(s, s.circle.currentRound);
    var of := RoundWeights(s).of;
    SweptKeepsFolk(s);
    SplitGoesByAddress(s.members, w.members, of, NetNow(s), |s.members|);
    hide Swept, TakersUpTo, FirstTakerFull, WeightsFit;
  }

  lemma SweptKeepsFolk(s: Storage)
    ensures var w := Swept(s, s.circle.currentRound);
            SameFolk(s.members, w.members) && w == s.(members := w.members, memberStatus := w.memberStatus, roundStrikes := w.roundStrikes)
  {
    hide SweepUpTo;
    SweepIsQuiet(Sweep(s.members, s.memberStatus, s.roundStrikes), s.circle.maxStrikes, s.circle.currentRound,
                 RoundContributors(s, s.circle.currentRound), |s.members|);
  }

  lemma {:induction false} SplitGoesByAddress(members: seq<Member>, members': seq<Member>, of: map<Address, uint128>, net: int128, i: nat)
    requires SameFolk(members, members') && i <= |members|
    ensures TakersUpTo(members', of, net, i) == TakersUpTo(members, of, net, i)
    ensures FirstTakerFull(members', of, net, i) == FirstTakerFull(members, of, net, i)
  {
    if i > 0 {
      SplitGoesByAddress(members, members', of, net, i - 1);
      assert WeightAt(of, members'[i - 1]) == WeightAt(of, members[i - 1]);
      hide WeightAt;
    }
  }

  ghost predicate PaidExactly(settlements: seq<Settlement>) {
    forall r :: 0 <= r < |settlements| ==> settlements[r].paid == settlements[r].net
  }

  /** A successful call that settles a round by paying out too much. */
  ghost predicate Overpaying(hash: Hash, s: Storage, c: Call) {
    Settling(c) && Outcome(hash, s, c).Ok? && WillOverpay(s)
  }

  lemma SettlingPays(hash: Hash, s: Storage, c: Call) returns (x: Settlement)
    requires Inv(s) && Settling(c) && Outcome(hash, s, c).Ok?
    ensures Outcome(hash, s, c).value.history.settlements == s.history.settlements + [x]
    ensures x.paid == x.net <==> !WillOverpay(s)
  {
    hide Inv, TriggerInternal, Swept, WillOverpay;
    match c
    case CallTrigger(caller, round, yieldOk, hostOk) =>
      x := TriggerPays(hash, s, round, yieldOk, hostOk);
    case CallDeadline(yieldOk, hostOk) =>
      var w := Swept(s, s.circle.currentRound);
      SweptIsSound(s);
      SweptKeepsFolk(s);
      SweepingKeepsSplit(s);
      x := TriggerPays(hash, w, s.circle.currentRound, yieldOk, hostOk);
  }

  lemma PaidExactlySnoc(settlements: seq<Settlement>, x: Settlement)
    ensures PaidExactly(settlements + [x]) <==> PaidExactly(settlements) && x.paid == x.net
  {
    if PaidExactly(settlements + [x]) {
      forall r | 0 <= r < |settlements|
        ensures settlements[r].paid == settlements[r].net
      {
        assert (settlements + [x])[r] == settlements[r];
      }
      assert (settlements + [x])[|settlements|] == x;
    }
  }

  lemma StepPaysExactly(hash: Hash, s: Storage, c: Call)
    requires Inv(s)
    ensures PaidExactly(Settled(s, Outcome(hash, s, c)).history.settlements)
            <==> PaidExactly(s.history.settlements) && !Overpaying(hash, s, c)
  {
    hide Inv, Outcome, WillOverpay, PaidExactly;
    if !Settling(c) {
      OthersSettleNothing(hash, s, c);
    } else if Outcome(hash, s, c).Ok? {
      var x := SettlingPays(hash, s, c);
      PaidExactlySnoc(s.history.settlements, x);
    }
  }

  /** The k-th call of the run overpaid. */
  ghost predicate OverpaidAt(hash: Hash, start: Storage, calls: seq<Call>, k: int) {
    0 <= k < |calls| && Overpaying(hash, Run(hash, start, calls[..k]), calls[k])
  }

  lemma {:induction false} RunPaysExactly(hash: Hash, start: Storage, calls: seq<Call>)
    requires Inv(start)
    ensures PaidExactly(Run(hash, start, calls).history.settlements)
            <==> PaidExactly(start.history.settlements) && forall k :: !OverpaidAt(hash, start, calls, k)
  {
    hide Inv, Outcome, PaidExactly, Overpaying;
    if calls != [] {
      var n := |calls| - 1;
      RunPaysExactly(hash, start, calls[..n]);
      RunKeeps(hash, start, calls[..n]);
      StepPaysExactly(hash, Run(hash, start, calls[..n]), calls[n]);
      OverpaidEarlierOrNow(hash, start, calls);
    }
  }

  lemma OverpaidEarlierOrNow(hash: Hash, start: Storage, calls: seq<Call>)
    requires calls != []
    ensures var n := |calls| - 1;
            (exists k :: OverpaidAt(hash, start, calls, k))
            <==> (exists k :: OverpaidAt(hash, start, calls[..n], k)) || Overpaying(hash, Run(hash, start, calls[..n]), calls[n])
  {
    hide Overpaying;
    var n := |calls| - 1;
    if k :| OverpaidAt(hash, start, calls, k) {
      assert k < n ==> calls[..n][..k] == calls[..k] && calls[..n][k] == calls[k];
      assert k < n ==> OverpaidAt(hash, start, calls[..n], k);
    }
    if k :| OverpaidAt(hash, start, calls[..n], k) {
      assert calls[..n][..k] == calls[..k] && calls[..n][k] == calls[k];
      assert OverpaidAt(hash, start, calls, k);
    }
    if Overpaying(hash, Run(hash, start, calls[..n]), calls[n]) {
      assert OverpaidAt(hash, start, calls, n);
    }
  }

  /** Main result on money: over any run of any circle, payouts and payout fees together are the recorded
      pools of the rounds that paid if and only if no call of the run settled a round whose saturated
      weights overpay. */
  lemma RunsConserveUnlessARoundOverpays(hash: Hash, launch: Launch, config: CircleConfig, calls: seq<Call>)
    requires Init(launch, config).Ok?
    ensures var start := Init(launch, config).value;
            var s := Run(hash, start, calls);
            && (PaidExactly(s.history.settlements) <==> forall k :: !OverpaidAt(hash, start, calls, k))
            && (s.circle.totalPayouts + SumMap(PayoutFees(s.feeLedgers)) == PaidPools(s.history.settlements)
                <==> forall k :: !OverpaidAt(hash, start, calls, k))
  {
    var start := Init(launch, config).value;
    var s := Run(hash, start, calls);
    assert start.history.settlements == [];
    hide Inv, Init, OverpaidAt, Run;
    InitIsSound(launch, config);
    RunPaysExactly(hash, start, calls);
    BooksBalance(hash, s);
    SettlementsAreSound(hash, s);
    SettlementsAddUp(s.history.settlements);
  }

  lemma SettlementsAreSound(hash: Hash, s: Storage)
    requires Reachable(hash, s)
    ensures forall r :: 0 <= r < |s.history.settlements| ==> SettlementSound(s.history.settlements[r])
  {
    ReachableStatesAreSound(hash, s);
    hide Inv, SettlementSound;
    forall r | 0 <= r < |s.history.settlements|
      ensures SettlementSound(s.history.settlements[r])
    {
      RoundFitsU32(s, r);
    }
  }

  /** Circles whose rounds always pay out exactly their net amount. */
  predicate Conserves(c: Circle) {
    c.payoutType != Random || c.contributionAmount <= MODEST_CONTRIBUTION
  }

  lemma ConservingNeverOverpays(hash: Hash, s: Storage)
    requires Inv(s) && Conserves(s.circle)
    ensures !WillOverpay(s)
  {
    hide MarksSound, VrfSound, BooksSound, BidsSound, SeatsSound, LogSound, WeightsFit;
    if s.circle.payoutType == Random {
      ModestWeightsFit(s);
    }
  }

  /** In particular a circle that is not random, or whose fixed contribution is modest, always conserves. */
  lemma ModestCirclesConserve(hash: Hash, launch: Launch, config: CircleConfig, calls: seq<Call>)
    requires Init(launch, config).Ok? && Conserves(Init(launch, config).value.circle)
    ensures PaidExactly(Run(hash, Init(launch, config).value, calls).history.settlements)
  {
    var start := Init(launch, config).value;
    hide Inv, Init, Run, WillOverpay, Outcome, PaidExactly, Owed, ScanContributors;
    forall k
      ensures !OverpaidAt(hash, start, calls, k)
    {
      if 0 <= k < |calls| {
        InitIsReachable(hash, launch, config);
        RunsExtend(hash, start, calls[..k]);
        ConservingNeverOverpays(hash, Run(hash, start, calls[..k]));
      }
    }
    RunsConserveUnlessARoundOverpays(hash, launch, config, calls);
  }
}
