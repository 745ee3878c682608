/** Runs on which plausible stronger claims about circles fail. */
module CircleExamples {
  import opened Common
  import opened SafeMath
  import opened Vrf
  import opened CircleTypes
  import opened Payout
  import opened CircleOps
  import opened CircleInvariant
  import opened CircleSettlement
  import opened CircleProofs
  import opened CircleRuns
  import opened CircleConservation

  // ----- a batch payment to a stranger marks nobody -----

  const ORGANIZER: Address := 1
  const STRANGER: Address := 7

  function Unranked(a: Address): uint32 {
    0
  }

  function FixedCircle(): Storage {
    Init(Launch(ORGANIZER, 5, 10, 0), CircleConfig(ORGANIZER, 100, 2, 1, 1, 0, 0, 0, 0, 0, 0, 0)).value
  }

  /** Closing a dispute activates a circle that is still filling up. */
  function Activated(): Storage {
    FixedCircle().(circle := FixedCircle().circle.(status := Active), dispute := Some(Dispute(ORGANIZER, 10, 10, 1, ORGANIZER)))
  }

  lemma ActivatedIsReachable(hash: Hash)
    ensures Reachable(hash, Activated())
  {
    hide Reachable;
    InitIsReachable(hash, Launch(ORGANIZER, 5, 10, 0), CircleConfig(ORGANIZER, 100, 2, 1, 1, 0, 0, 0, 0, 0, 0, 0));
    StepIsReachable(hash, FixedCircle(), CallDispute(ORGANIZER));
    var disputed := Settled(FixedCircle(), Outcome(hash, FixedCircle(), CallDispute(ORGANIZER)));
    StepIsReachable(hash, disputed, CallResolve(ORGANIZER, 1, true));
    assert Settled(disputed, Outcome(hash, disputed, CallResolve(ORGANIZER, 1, true))) == Activated();
  }

  /** The stranger is paid 10 by a batch. */
  function StrangerPaid(): Storage {
    Activated().(payouts := [PayoutRecord(STRANGER, 0, 10, 0, Fixed, 10)], history := History([], [], 0, [STRANGER], []))
  }

  /** The stranger is then invited, and contributes. */
  function StrangerSeated(): Storage {
    var paid := StrangerPaid();
    var seated := paid.(circle := paid.circle.(memberCount := 1), members := [NewMember(STRANGER, 0, 10)],
                        memberStatus := map[STRANGER := InGoodStanding]);
    Logged(seated, Contribution(STRANGER, 0, 100, 10, true))
  }

  lemma StrangerIsSeated(hash: Hash)
    ensures Reachable(hash, StrangerSeated())
  {
    hide Reachable;
    ActivatedIsReachable(hash);
    var batch := CallBatch(ORGANIZER, [STRANGER], [10], 0, true);
    StepIsReachable(hash, Activated(), batch);
    var paid := StrangerPaid();
    assert Outcome(hash, Activated(), batch) == Ok(paid) by { BatchOfOne(); }
    var invite := CallInvite(ORGANIZER, [STRANGER], Unranked);
    StepIsReachable(hash, paid, invite);
    var seated := paid.(circle := paid.circle.(memberCount := 1), members := [NewMember(STRANGER, 0, 10)],
                        memberStatus := map[STRANGER := InGoodStanding]);
    assert Outcome(hash, paid, invite) == Ok(seated) by { InviteOfOne(paid); }
    StepIsReachable(hash, seated, CallContribute(STRANGER, 100, 0, true));
  }

  lemma BatchOfOne()
    ensures BatchPayout(Activated(), ORGANIZER, [STRANGER], [10], 0, true)
            == Ok(StrangerPaid())
  {
    hide WrapI128;
    WrapIsExactWhenItFits(10);
    var s := Activated();
    assert s.history.strangersPaid + [STRANGER] == [STRANGER];
    assert s.payouts + [PayoutRecord(STRANGER, 0, 10, 0, Fixed, 10)] == [PayoutRecord(STRANGER, 0, 10, 0, Fixed, 10)];
    assert PayBatchEntry(s, STRANGER, 10) == Ok(StrangerPaid());
    assert BatchUpTo(s, [STRANGER], [10], 0) == Ok(s);
  }

  lemma InviteOfOne(s: Storage)
    requires s == StrangerPaid()
    ensures BatchInvite(s, ORGANIZER, [STRANGER], Unranked)
            == Ok(s.(circle := s.circle.(memberCount := 1), members := [NewMember(STRANGER, 0, 10)],
                     memberStatus := map[STRANGER := InGoodStanding]))
  {
    assert InviteUpTo(s.circle, [], [STRANGER], Unranked, 10, 0) == Ok([]);
    assert [] + [NewMember(STRANGER, 0, 10)] == [NewMember(STRANGER, 0, 10)];
    assert InviteUpTo(s.circle, [], [STRANGER], Unranked, 10, 1) == Ok([NewMember(STRANGER, 0, 10)]);
    assert MarkStatus(map[], [], InGoodStanding) == map[];
    assert [STRANGER][..0] == [];
    assert MarkStatus(map[], [STRANGER], InGoodStanding) == map[STRANGER := InGoodStanding];
  }

  lemma StrangerTriggers(hash: Hash)
    ensures Outcome(hash, StrangerSeated(), CallTrigger(ORGANIZER, 0, true, true)) == SettlePool(StrangerSeated(), STRANGER, true, true)
  {
    hide SettlePool, ResolveFixed, Awaiting, CircleOps.RoundContributors, WithTotal, WithContributor;
    NobodyAwaited();
    StrangerResolves();
    var s := StrangerSeated();
    assert Resolve(hash, s, 0) == Ok(Resolution(STRANGER, s.vrf, s.winners));
  }

  lemma NobodyAwaited()
    ensures Awaiting(StrangerSeated().members, CircleOps.RoundContributors(StrangerSeated(), 0)) == 0
  {
    assert StrangerSeated().members[..0] == [];
  }

  lemma StrangerPays()
    ensures SettlePool(StrangerSeated(), STRANGER, true, true).Ok?
    ensures var s := SettlePool(StrangerSeated(), STRANGER, true, true).value;
            && s.history.settlements == [Settlement(STRANGER, 100, 100, 0, 100)]
            && |s.payouts| > 0 && s.payouts[0] == PayoutRecord(STRANGER, 0, 10, 0, Fixed, 10)
            && s.circle.status == Completed && s.dispute.Some? && s.admin == ORGANIZER
  {
    var s := StrangerSeated();
    assert RoundTotal(s, 0) == 100;
    assert ApplyFee(100, 0) == Ok(Split(100, 0)) by { FeeSplitsAmount(100, 0); }
    hide RoundTotal, ApplyFee;
    assert s.history.settlements + [Settlement(STRANGER, 100, 100, 0, 100)] == [Settlement(STRANGER, 100, 100, 0, 100)];
    assert CreditUpTo(s.members, STRANGER, 100, 0) == Ok(s.members);
  }

  /** A stranger paid by a batch and invited afterwards is resolved as the recipient of a round: the
      claim that nobody gets both a batch payment and a round holds of members only. */
  lemma StrangerIsPaidTwice(hash: Hash) returns (s: Storage)
    ensures Reachable(hash, s) && IsRecipient(s.history, STRANGER) && s.history.settlements[0].paid == 100
    ensures |s.payouts| > 0 && s.payouts[0] == PayoutRecord(STRANGER, 0, 10, 0, Fixed, 10)
  {
    hide Reachable, SettlePool, Outcome;
    StrangerIsSeated(hash);
    StrangerTriggers(hash);
    StrangerPays();
    StepIsReachable(hash, StrangerSeated(), CallTrigger(ORGANIZER, 0, true, true));
    s := SettlePool(StrangerSeated(), STRANGER, true, true).value;
    assert s.history.settlements[0].recipient == STRANGER;
  }

  /** Completion is not final: the dispute entry outlives its resolution, and resolving it again puts a
      completed circle back to active. */
  lemma CompletedCircleReactivates(hash: Hash) returns (s: Storage)
    ensures Reachable(hash, s) && s.circle.status == Completed
    ensures ResolveDispute(s, ORGANIZER, 1, true).Ok? && ResolveDispute(s, ORGANIZER, 1, true).value.circle.status == Active
  {
    hide Reachable, SettlePool, Outcome;
    StrangerIsSeated(hash);
    StrangerTriggers(hash);
    StrangerPays();
    StepIsReachable(hash, StrangerSeated(), CallTrigger(ORGANIZER, 0, true, true));
    s := SettlePool(StrangerSeated(), STRANGER, true, true).value;
  }

  lemma StrangerResolves()
    ensures ResolveFixed(StrangerSeated().circle, StrangerSeated().members, 0) == Ok(STRANGER)
  {
    var members := StrangerSeated().members;
    assert ActivePositions([]) == map[];
    assert members[..0] == [];
    assert ActivePositions(members) == map[0 := STRANGER];
  }

  // ----- saturated weights hand out more than the pool -----

  const FIRST: Address := 1
  const SECOND: Address := 2
  const HUGE: int128 := 0x10_0000_0000_0000_0000_0000_0000
  const LATER: uint64 := 0x4000_0000

  function HugeCircle(): Storage {
    Init(Launch(FIRST, 5, 0, 0), CircleConfig(FIRST, HUGE, 2, 0, 1, 0, 0, 0, 0, 0, 0, 0)).value
  }

  function HugeSeated(): Storage {
    HugeCircle().(circle := HugeCircle().circle.(memberCount := 2, status := Active),
                  members := [NewMember(FIRST, 0, 0), NewMember(SECOND, 1, 0)],
                  memberStatus := map[FIRST := InGoodStanding, SECOND := InGoodStanding])
  }

  lemma HugeIsSeated(hash: Hash)
    ensures Reachable(hash, HugeSeated())
  {
    hide Reachable;
    InitIsReachable(hash, Launch(FIRST, 5, 0, 0), CircleConfig(FIRST, HUGE, 2, 0, 1, 0, 0, 0, 0, 0, 0, 0));
    StepIsReachable(hash, HugeCircle(), CallJoin(FIRST, 0, true, true));
    var one := Settled(HugeCircle(), Outcome(hash, HugeCircle(), CallJoin(FIRST, 0, true, true)));
    assert one.members == [NewMember(FIRST, 0, 0)];
    StepIsReachable(hash, one, CallJoin(SECOND, 0, true, true));
    var two := Settled(one, Outcome(hash, one, CallJoin(SECOND, 0, true, true)));
    assert two.members == [NewMember(FIRST, 0, 0), NewMember(SECOND, 1, 0)];
    assert two.memberStatus == map[FIRST := InGoodStanding, SECOND := InGoodStanding];
  }

  /** Both contributed long ago. */
  function HugeContributed(): Storage {
    Logged(Logged(HugeSeated(), Contribution(FIRST, 0, HUGE, 0, true)), Contribution(SECOND, 0, HUGE, 0, true)).(now := LATER)
  }

  lemma HugeIsContributed(hash: Hash)
    ensures Reachable(hash, HugeContributed())
  {
    hide Reachable;
    HugeIsSeated(hash);
    StepIsReachable(hash, HugeSeated(), CallContribute(FIRST, HUGE, 0, true));
    var one := Logged(HugeSeated(), Contribution(FIRST, 0, HUGE, 0, true));
    StepIsReachable(hash, one, CallContribute(SECOND, HUGE, 0, true));
    var two := Logged(one, Contribution(SECOND, 0, HUGE, 0, true));
    StepIsReachable(hash, two, Tick(LATER, 0));
  }

  lemma HugeWeights()
    ensures RoundWeights(HugeContributed()) == Weights(map[FIRST := U128_MAX, SECOND := U128_MAX], U128_MAX)
  {
    var log := HugeContributed().contributions;
    assert log == [Contribution(FIRST, 0, HUGE, 0, true), Contribution(SECOND, 0, HUGE, 0, true)];
    assert forall c :: c in log ==> WeightOf(c, LATER) == U128_MAX;
    assert Weigh(log[..0], 0, LATER) == Weights(map[], 0);
    assert log[..1][..0] == log[..0] && log[..1][0] == log[0];
    assert Weigh(log[..1], 0, LATER) == Weights(map[FIRST := U128_MAX], U128_MAX);
  }

  lemma HugePool()
    ensures RoundTotal(HugeContributed(), 0) == 2 * HUGE
    ensures Awaiting(HugeContributed().members, RoundContributors(HugeContributed(), 0)) == 0
  {
    assert RoundContributors(HugeContributed(), 0) == [FIRST, SECOND];
    var members := HugeContributed().members;
    assert members[..1][..0] == members[..0] == [];
    assert Awaiting(members[..0], [FIRST, SECOND]) == 0;
    assert Awaiting(members[..1], [FIRST, SECOND]) == 0;
  }

  function Credited(m: Member, a: Address, amount: int128): Member
    requires FitsI128(m.totalReceived + amount)
  {
    if m.address == a then m.(totalReceived := m.totalReceived + amount) else m
  }

  lemma CreditBoth(members: seq<Member>, a: Address, amount: int128)
    requires |members| == 2 && FitsI128(members[0].totalReceived + amount) && FitsI128(members[1].totalReceived + amount)
    ensures Credit(members, a, amount).Ok?
    ensures Credit(members, a, amount).value[0] == Credited(members[0], a, amount)
    ensures Credit(members, a, amount).value[1] == Credited(members[1], a, amount)
  {
    assert CreditUpTo(members, a, amount, 0) == Ok(members);
    assert CreditUpTo(members, a, amount, 1).Ok?;
  }

  lemma HugeDistributes(recipient: Address)
    ensures var info := RoundInfo(0, Random, LATER);
            Shared(HugeContributed(), recipient, 2 * HUGE, 0, info).Ok?
            && Shared(HugeContributed(), recipient, 2 * HUGE, 0, info).value.distributed == 2 * HUGE + 1
  {
    var s, net, info := HugeContributed(), 2 * HUGE, RoundInfo(0, Random, LATER);
    var weights := RoundWeights(s);
    HugeWeights();
    SaturatedShare(net, U128_MAX, 0);
    SaturatedShare(net, U128_MAX, net);
    hide Share, Weigh;
    var start := Dist(s.members, 0, s.payouts + [PayoutRecord(recipient, 0, net, 0, Random, LATER)]);
    assert DistributeUpTo(start, weights, net, info, 0) == Ok(start);
    CreditBoth(s.members, FIRST, net);
    hide Credit;
    var one := PayShare(start, FIRST, net, info);
    assert DistributeUpTo(start, weights, net, info, 1) == one;
    CreditBoth(one.value.members, SECOND, 1);
    assert DistributeUpTo(start, weights, net, info, 2) == PayShare(one.value, SECOND, 1, info);
  }

  lemma HugeResolves(hash: Hash)
    requires Reachable(hash, HugeContributed())
    ensures var s := HugeContributed(); ResolveRandom(hash, s.circle, s.members, s.vrf, 0).Ok?
  {
    hide Reachable, ResolveRandom, ShufflePositions;
    assert UnpaidSeat(HugeContributed().circle, HugeContributed().members, 0);
    RandomRoundsResolve(hash, HugeContributed());
  }

  lemma HugeTriggers(hash: Hash, p: Pick)
    requires var s := HugeContributed(); ResolveRandom(hash, s.circle, s.members, s.vrf, 0) == Ok(p)
    ensures var s := HugeContributed();
            Outcome(hash, s, CallTrigger(FIRST, 0, true, true)) == SettlePool(s.(vrf := p.vrf), p.recipient, true, true)
  {
    hide ResolveRandom, SettlePool, RoundContributors, Awaiting;
    HugePool();
  }

  /** Two huge contributions held for some time: the round pays out one unit more than its pool. The two
      contributions are all this circle was ever paid, so its transfers go through, as the call's flag
      says, only when tokens sent to the contract from outside cover the extra unit. */
  lemma SaturatedRoundOverpays(hash: Hash) returns (s: Storage)
    ensures Reachable(hash, s) && |s.history.settlements| == 1
    ensures s.history.settlements[0].paid == s.history.settlements[0].net + 1 == s.history.settlements[0].pool + 1
  {
    hide Reachable, ResolveRandom, SettlePool, Outcome;
    var before := HugeContributed();
    HugeIsContributed(hash);
    HugeResolves(hash);
    var p := ResolveRandom(hash, before.circle, before.members, before.vrf, 0).value;
    HugeTriggers(hash, p);
    HugePays(before.(vrf := p.vrf), p.recipient);
    StepIsReachable(hash, before, CallTrigger(FIRST, 0, true, true));
    s := SettlePool(before.(vrf := p.vrf), p.recipient, true, true).value;
  }

  lemma HugePays(t: Storage, recipient: Address)
    requires t == HugeContributed().(vrf := t.vrf)
    ensures SettlePool(t, recipient, true, true).Ok?
    ensures SettlePool(t, recipient, true, true).value.history.settlements == [Settlement(recipient, 2 * HUGE, 2 * HUGE, 0, 2 * HUGE + 1)]
  {
    HugePool();
    HugeDistributes(recipient);
    assert RoundTotal(t, 0) == 2 * HUGE;
    assert ApplyFee(2 * HUGE, 0) == Ok(Split(2 * HUGE, 0)) by { FeeSplitsAmount(2 * HUGE, 0); }
    assert Shared(t, recipient, 2 * HUGE, 0, RoundInfo(0, Random, LATER))
           == Shared(HugeContributed(), recipient, 2 * HUGE, 0, RoundInfo(0, Random, LATER));
    hide RoundTotal, ApplyFee, DistributeUpTo, Weigh;
    assert t.history.settlements + [Settlement(recipient, 2 * HUGE, 2 * HUGE, 0, 2 * HUGE + 1)]
           == [Settlement(recipient, 2 * HUGE, 2 * HUGE, 0, 2 * HUGE + 1)];
  }
}
