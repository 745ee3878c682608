/** Short runs that reach the exceptional states of circles: failing sweeps, lost votes, dropped deposits,
    overflowing deadlines, empty rounds and strikes at the end of their range. */
module CircleCases {
  import opened Common
  import opened SafeMath
  import opened Bitmap
  import opened Vrf
  import opened CircleTypes
  import opened Payout
  import opened CircleOps
  import opened CircleInvariant
  import opened CircleSettlement
  import opened CircleProofs
  import opened CircleRefunds
  import opened CircleRuns
  import opened CircleStatus
  import opened CircleLedger
  import opened CircleConservation
  import opened CircleWindow
  import opened CirclePayments
  import opened CircleTerms
  import opened CircleSweep
  import opened CircleStalls

  const FIRST: Address := 1
  const SECOND: Address := 2

  /** A circle of two seats for 100 a round, created by its admin and organizer at time `now`. */
  function Opened(now: uint64, payoutType: PayoutType, deadline: uint64, grace: uint64, maxStrikes: uint32): Storage {
    var code := match payoutType case Random => 0 case Fixed => 1 case Auction => 2 case Vote => 3;
    Init(Launch(FIRST, 5, now, 0), CircleConfig(FIRST, 100, 2, code, 2, deadline, 0, 0, 0, grace, maxStrikes, 0)).value
  }

  lemma OpenedIsReachable(hash: Hash, now: uint64, payoutType: PayoutType, deadline: uint64, grace: uint64, maxStrikes: uint32)
    ensures Reachable(hash, Opened(now, payoutType, deadline, grace, maxStrikes))
  {
    var code := match payoutType case Random => 0 case Fixed => 1 case Auction => 2 case Vote => 3;
    InitIsReachable(hash, Launch(FIRST, 5, now, 0), CircleConfig(FIRST, 100, 2, code, 2, deadline, 0, 0, 0, grace, maxStrikes, 0));
  }

  /** Both seats taken. */
  function Full(now: uint64, payoutType: PayoutType, deadline: uint64, grace: uint64, maxStrikes: uint32): Storage {
    var s := Opened(now, payoutType, deadline, grace, maxStrikes);
    s.(circle := s.circle.(memberCount := 2, status := Active, startedAt := now),
       members := [NewMember(FIRST, 0, now), NewMember(SECOND, 1, now)],
       memberStatus := map[FIRST := InGoodStanding, SECOND := InGoodStanding])
  }

  lemma FullIsReachable(hash: Hash, now: uint64, payoutType: PayoutType, deadline: uint64, grace: uint64, maxStrikes: uint32)
    ensures Reachable(hash, Full(now, payoutType, deadline, grace, maxStrikes))
  {
    hide Reachable;
    var s := Opened(now, payoutType, deadline, grace, maxStrikes);
    OpenedIsReachable(hash, now, payoutType, deadline, grace, maxStrikes);
    StepIsReachable(hash, s, CallJoin(FIRST, 0, true, true));
    var one := Settled(s, Outcome(hash, s, CallJoin(FIRST, 0, true, true)));
    assert one.members == [NewMember(FIRST, 0, now)];
    StepIsReachable(hash, one, CallJoin(SECOND, 0, true, true));
    var two := Settled(one, Outcome(hash, one, CallJoin(SECOND, 0, true, true)));
    assert two.members == [NewMember(FIRST, 0, now), NewMember(SECOND, 1, now)];
    assert two.memberStatus == map[FIRST := InGoodStanding, SECOND := InGoodStanding];
  }

  lemma NoBits(p: nat)
    ensures !Bit(0, p)
  {
    ZeroHasNoBits(p);
  }

  // ----- a sweep that fails where a trigger settles -----

  /** Nobody has contributed, and the window has just closed. */
  function Missed(): Storage {
    Full(0, Fixed, 100, 0, 1).(now := 101)
  }

  lemma MissedIsReachable(hash: Hash)
    ensures Reachable(hash, Missed())
  {
    hide Reachable;
    FullIsReachable(hash, 0, Fixed, 100, 0, 1);
    StepIsReachable(hash, Full(0, Fixed, 100, 0, 1), Tick(101, 0));
  }

  lemma MissedIsSwept()
    ensures Swept(Missed(), 0).members[0].status == Defaulted
  {
    var s := Missed();
    var w := Sweep(s.members, s.memberStatus, s.roundStrikes);
    assert RoundContributors(s, 0) == [];
    assert SweepUpTo(w, 1, 0, [], 0) == w;
    var one := SweepUpTo(w, 1, 0, [], 1);
    assert one.members[0].status == Defaulted;
  }

  lemma MissedIsDue()
    ensures var s := Missed();
            SweepDue(s) && CanResolve(s) && !Stuck(s) && TriggerDue(s, 0) && |s.members| == s.circle.maxMembers && s.feeBps == 0
  {
    NoBits(0);
    assert UnpaidSeat(Missed().circle, Missed().members, 0);
    hide Bit, Awaiting;
  }

  lemma MissedSweptIsStuck()
    ensures Stuck(Swept(Missed(), 0))
  {
    MissedIsSwept();
    assert Swept(Missed(), 0).circle == Missed().circle;
    hide Swept, Bit;
  }

  lemma MissedPoolIsEmpty()
    ensures RoundTotal(Missed(), 0) == 0
  {
  }

  lemma MissedTriggers(hash: Hash)
    requires Reachable(hash, Missed())
    ensures TriggerPayout(hash, Missed(), FIRST, 0, true, true).Ok?
    ensures TriggerPayout(hash, Missed(), FIRST, 0, true, true).value.circle.currentRound == 1
  {
    var s := Missed();
    MissedIsDue();
    MissedPoolIsEmpty();
    hide Reachable, Stuck, SweepDue, TriggerDue, CanResolve, TriggerInternal, Inv, SumsFit, RoundTotal, Resolve;
    ReachableStatesAreSound(hash, s);
    TriggerSettlesExactly(hash, s, 0, true, true);
    var k, x := TriggerSettles(hash, s, 0, true, true);
  }

  /** The strikes of this sweep default everybody, so it fails with any flags and is rolled back; the same round
      is settled by the organizer's trigger, which strikes nobody. */
  lemma SweepFailsWhereTriggerSettles(hash: Hash) returns (s: Storage)
    ensures Reachable(hash, s) && SweepDue(s) && Stuck(Swept(s, 0)) && !Stuck(s)
    ensures forall yieldOk, hostOk :: CheckContributionDeadline(hash, s, yieldOk, hostOk).Err?
    ensures s.circle.currentRound == 0 && TriggerPayout(hash, s, FIRST, 0, true, true).Ok?
    ensures TriggerPayout(hash, s, FIRST, 0, true, true).value.circle.currentRound == 1
  {
    s := Missed();
    MissedIsReachable(hash);
    MissedIsDue();
    MissedSweptIsStuck();
    MissedTriggers(hash);
    hide Reachable, Stuck, Swept, SweepDue, TriggerDue, CanResolve, TriggerPayout, CheckContributionDeadline, Resolve;
    SweepStallsExactlyWhenStuck(hash, s);
  }

  // ----- a vote that nobody can win any more -----

  function Elected(): Storage {
    Full(0, Vote, 100, 0, 1).(votes := [VoteEntry(FIRST, FIRST, 0, 0), VoteEntry(SECOND, FIRST, 0, 0)])
  }

  /** Both have voted for the first member, who then leaves. */
  function Abandoned(): Storage {
    Elected().(members := [Departed(NewMember(FIRST, 0, 0), 0), NewMember(SECOND, 1, 0)],
               memberStatus := map[FIRST := Exited, SECOND := InGoodStanding])
  }

  /** One vote for the first member has been cast. */
  function HalfElected(): Storage {
    Full(0, Vote, 100, 0, 1).(votes := [VoteEntry(FIRST, FIRST, 0, 0)])
  }

  lemma FirstVotes(hash: Hash)
    ensures Outcome(hash, Full(0, Vote, 100, 0, 1), CallVote(FIRST, FIRST, 0)) == Ok(HalfElected())
  {
    var s := Full(0, Vote, 100, 0, 1);
    assert IsActiveMember(s.members, FIRST) by { assert s.members[0].address == FIRST; }
    assert s.votes + [VoteEntry(FIRST, FIRST, 0, 0)] == HalfElected().votes;
    hide IsActiveMember;
  }

  lemma SecondVotes(hash: Hash)
    ensures Outcome(hash, HalfElected(), CallVote(SECOND, FIRST, 0)) == Ok(Elected())
  {
    var s := HalfElected();
    assert IsActiveMember(s.members, FIRST) by { assert s.members[0].address == FIRST; }
    assert IsActiveMember(s.members, SECOND) by { assert s.members[1].address == SECOND; }
    assert s.votes + [VoteEntry(SECOND, FIRST, 0, 0)] == Elected().votes;
    hide IsActiveMember;
  }

  lemma FirstLeaves(hash: Hash)
    ensures Outcome(hash, Elected(), CallExit(FIRST, true, true)) == Ok(Abandoned())
  {
    assert WithDeparted(Elected().members, FIRST, 0) == Abandoned().members;
    assert Elected().memberStatus[FIRST := Exited] == Abandoned().memberStatus;
    hide WithDeparted;
  }

  lemma AbandonedIsReachable(hash: Hash)
    ensures Reachable(hash, Abandoned())
  {
    hide Reachable, Outcome, Full, HalfElected, Elected, Abandoned;
    FullIsReachable(hash, 0, Vote, 100, 0, 1);
    FirstVotes(hash);
    OutcomeIsReachable(hash, Full(0, Vote, 100, 0, 1), CallVote(FIRST, FIRST, 0));
    SecondVotes(hash);
    OutcomeIsReachable(hash, HalfElected(), CallVote(SECOND, FIRST, 0));
    FirstLeaves(hash);
    OutcomeIsReachable(hash, Elected(), CallExit(FIRST, true, true));
  }

  lemma AbandonedTally()
    ensures TallyVotes(Abandoned().votes, 0) == map[FIRST := 2]
  {
    var votes := Abandoned().votes;
    assert TallyVotes(votes[..0], 0) == map[];
    assert votes[..1][..0] == votes[..0] && votes[..1][0] == votes[0];
    assert TallyVotes(votes[..1], 0) == map[FIRST := 1];
  }

  lemma NobodyIsElectable(e: Address)
    requires TallyVotes(Abandoned().votes, 0) == map[FIRST := 2] && OpenBallots(Abandoned()) == 0
    ensures !Electable(Abandoned(), e)
  {
    hide Bit, Undecided, TallyVotes;
    if e == FIRST {
      assert !Eligible(Abandoned().circle, Abandoned().members, e);
      assert HasMember(Abandoned().members, e) by { assert Abandoned().members[0].address == FIRST; }
    }
  }

  /** A full vote circle whose ballots are all cast for a member who has left: another member is unpaid and
      active, but no run ever settles the round. */
  lemma LostVoteNeverSettles(hash: Hash) returns (s: Storage)
    ensures Reachable(hash, s) && s.circle.status == Active && UnpaidSeat(s.circle, s.members, 1) && !Settleable(s)
    ensures forall calls :: !SettlesBy(hash, s, calls)
  {
    s := Abandoned();
    AbandonedIsReachable(hash);
    AbandonedTally();
    NoBits(1);
    assert HasVoted(s.votes, SECOND, 0) by { assert s.votes[1].voter == SECOND; }
    assert Undecided(s.members, s.votes, 0, 0) == 0;
    assert Undecided(s.members, s.votes, 0, 1) == 0;
    assert OpenBallots(s) == 0;
    hide Reachable, Bit, Undecided, TallyVotes, HasVoted;
    forall e
      ensures !Electable(s, e)
    {
      NobodyIsElectable(e);
    }
    hide Settleable, Run, Electable;
    forall calls
      ensures !SettlesBy(hash, s, calls)
    {
      UnsettleableRoundsNeverSettle(hash, s, calls);
    }
  }

  // ----- deposits that cancelling does not match -----

  const EIGHT: Address := 8
  const NINE: Address := 9

  /** Two accounts have bid, each with a deposit of 100. */
  function TwoBids(): Storage {
    Opened(0, Auction, 0, 0, 1).(bids := [Bid(EIGHT, 0, 0, 0, 100), Bid(NINE, 0, 0, 0, 100)])
  }

  /** Cancelling pays the later bidder and drops the deposit of the earlier one. */
  lemma CancellingDropsADeposit(hash: Hash) returns (s: Storage)
    ensures Reachable(hash, s) && CancelRefund(s) == Ok(Some((NINE, 100)))
    ensures s.bids == [Bid(EIGHT, 0, 0, 0, 100), Bid(NINE, 0, 0, 0, 100)] && BidsOutside(s.bids, s.circle.currentRound) == []
  {
    s := TwoBids();
    var none, one := Opened(0, Auction, 0, 0, 1), TwoBids().(bids := [Bid(EIGHT, 0, 0, 0, 100)]);
    assert s.bids[..1] == one.bids && one.bids[..0] == [] && s.bids[..1][..0] == [];
    assert BidsOutside(s.bids[..0], 0) == [] && BidsOutside(s.bids[..1], 0) == [];
    assert BestBid(s.bids[..1], 0) == Some(s.bids[0]);
    hide Reachable;
    OpenedIsReachable(hash, 0, Auction, 0, 0, 1);
    assert none.bids + [Bid(EIGHT, 0, 0, 0, 100)] == one.bids;
    assert Outcome(hash, none, CallBid(EIGHT, 0, 0, true)) == Ok(one);
    StepIsReachable(hash, none, CallBid(EIGHT, 0, 0, true));
    assert one.bids + [Bid(NINE, 0, 0, 0, 100)] == s.bids;
    assert Outcome(hash, one, CallBid(NINE, 0, 0, true)) == Ok(s);
    StepIsReachable(hash, one, CallBid(NINE, 0, 0, true));
  }

  /** A Dutch round has been cleared by an account without a seat or a deposit. */
  function DutchCleared(): Storage {
    Opened(0, Auction, 0, 0, 1).(bids := [Bid(EIGHT, 50, 0, 0, 0)], dutch := map[0 := DutchAuction(50, 0, 1, 0, 9, true)])
  }

  /** Cancelling then pays a whole contribution for a deposit of nothing. */
  lemma CancellingPaysWithoutADeposit(hash: Hash) returns (s: Storage)
    ensures Reachable(hash, s) && CancelRefund(s) == Ok(Some((EIGHT, 100))) && Deposits(s.bids) == 0 && !HasMember(s.members, EIGHT)
  {
    s := DutchCleared();
    var none := Opened(0, Auction, 0, 0, 1);
    var offered := none.(dutch := map[0 := DutchAuction(50, 0, 1, 0, 9, false)]);
    assert s.bids[..0] == [];
    assert BestBid(s.bids, 0) == Some(s.bids[0]);
    hide Reachable;
    OpenedIsReachable(hash, 0, Auction, 0, 0, 1);
    assert Outcome(hash, none, CallInitDutch(FIRST, 0, 50, 0, 1, 9)) == Ok(offered);
    StepIsReachable(hash, none, CallInitDutch(FIRST, 0, 50, 0, 1, 9));
    assert none.bids + [Bid(EIGHT, 50, 0, 0, 0)] == s.bids;
    assert offered.dutch[0 := DutchAuction(50, 0, 1, 0, 9, true)] == s.dutch;
    assert Outcome(hash, offered, CallDutchBid(EIGHT, 0)) == Ok(s);
    StepIsReachable(hash, offered, CallDutchBid(EIGHT, 0));
  }

  // ----- a deadline past the end of the clock -----

  /** A full circle, started at time 1 with the longest deadline: contributions are refused at any time, and the
      window never closes. */
  lemma DeadlineOverflows(hash: Hash) returns (s: Storage)
    ensures Reachable(hash, s) && s.circle.status == Active
    ensures forall now: uint64 :: WindowOverflows(s.circle, now) && Timeliness(s.circle, now).Err? && !WindowClosed(s.circle, now)
  {
    s := Full(1, Fixed, U64_MAX, 0, 1);
    FullIsReachable(hash, 1, Fixed, U64_MAX, 0, 1);
  }

  // ----- a round after the window -----

  function Paying(a: Address): Contribution {
    Contribution(a, 0, 100, 0, true)
  }

  /** Both have contributed to the first round, and the window has closed. */
  function Funded(): Storage {
    Logged(Logged(Full(0, Fixed, 100, 0, 1), Paying(FIRST)), Paying(SECOND)).(now := 101)
  }

  lemma FundedIsReachable(hash: Hash)
    ensures Reachable(hash, Funded())
  {
    hide Reachable;
    var s := Full(0, Fixed, 100, 0, 1);
    FullIsReachable(hash, 0, Fixed, 100, 0, 1);
    assert Outcome(hash, s, CallContribute(FIRST, 100, 0, true)) == Ok(Logged(s, Paying(FIRST)));
    StepIsReachable(hash, s, CallContribute(FIRST, 100, 0, true));
    var one := Logged(s, Paying(FIRST));
    assert Outcome(hash, one, CallContribute(SECOND, 100, 0, true)) == Ok(Logged(one, Paying(SECOND)));
    StepIsReachable(hash, one, CallContribute(SECOND, 100, 0, true));
    StepIsReachable(hash, Logged(one, Paying(SECOND)), Tick(101, 0));
  }

  lemma FundedIsDue()
    ensures var s := Funded();
            && TriggerDue(s, 0) && CanResolve(s) && s.feeBps == 0 && RoundTotal(s, 0) == 200 && NetDue(s) == 200 && FeeDue(s) == 0
            && forall a :: SumsFit(s, 200, 0, a)
  {
    var s := Funded();
    NoBits(0);
    assert UnpaidSeat(s.circle, s.members, 0);
    hide Bit, Awaiting;
    forall a
      ensures SumsFit(s, 200, 0, a)
    {
      assert forall i :: 0 <= i < |s.members| ==> s.members[i].totalReceived == 0 && Receipt(s, 200, a, i) <= 200;
    }
  }

  /** The round open at the deadline pays out both contributions; the next one, which nobody can contribute to,
      settles with nothing. */
  lemma NextRoundIsEmpty(hash: Hash) returns (s: Storage, calls: seq<Call>)
    ensures Reachable(hash, s) && Shut(s) && s.circle.currentRound == 0
    ensures var settled := Run(hash, s, calls).history.settlements;
            && |settled| == 2 && settled[0].pool == settled[0].paid == 200
            && settled[1].pool == settled[1].net == settled[1].fee == settled[1].paid == 0
  {
    s := Funded();
    FundedIsReachable(hash);
    var t := FundedSettles(hash);
    NextSettles(hash, t);
    hide Reachable, Outcome, TriggerInternal, SameWindow, SameChairs, SetBit;
    var first, second := CallTrigger(FIRST, 0, true, true), CallTrigger(FIRST, 1, true, true);
    calls := [] + [first] + [second];
    RunThen(hash, s, [], first);
    RunThen(hash, s, [] + [first], second);
    RoundsAfterTheWindowPayNothing(hash, s, calls, 1);
  }

  /** What the rest of the run needs to know of that state. */
  lemma FundedShape()
    ensures var s := Funded();
            && s.circle == Full(0, Fixed, 100, 0, 1).circle && s.circle.organizer == FIRST && s.history.settlements == [] && s.contributions == [Paying(FIRST), Paying(SECOND)]
            && s.members == [NewMember(FIRST, 0, 0), NewMember(SECOND, 1, 0)] && s.now == 101
    ensures Shut(Funded())
  {
  }

  lemma FundedNet()
    ensures NetNow(Funded()) == 200 && !WillOverpay(Funded())
  {
    FundedIsDue();
    hide RoundTotal, ApplyFee, Overpays;
    FeeSplitsAmount(200, 0);
  }

  lemma FundedResolves(hash: Hash)
    ensures Resolve(hash, Funded(), 0).Ok? && Resolve(hash, Funded(), 0).value.recipient == FIRST
  {
    NoBits(0);
    assert UnpaidSeat(Funded().circle, Funded().members, 0);
    hide ResolveFixed, Bit;
    FixedPicksUnpaidMember(Funded().circle, Funded().members, 0);
  }

  lemma FundedSettles(hash: Hash) returns (t: Storage)
    requires Reachable(hash, Funded())
    ensures Outcome(hash, Funded(), CallTrigger(FIRST, 0, true, true)) == Ok(t) && Reachable(hash, t)
    ensures |t.history.settlements| == 1 && t.history.settlements[0].pool == t.history.settlements[0].paid == 200
    ensures SameWindow(Funded(), t) && t.circle.currentRound == 1 && t.circle.bitmap == SetBit(0, 0) && SameChairs(Funded().members, t.members)
    ensures t.circle == Funded().circle.(bitmap := t.circle.bitmap, currentRound := 1, totalPayouts := t.circle.totalPayouts,
                                         totalFees := t.circle.totalFees)
  {
    var s := Funded();
    FundedIsDue();
    FundedNet();
    FundedResolves(hash);
    FundedShape();
    hide Reachable, TriggerDue, CanResolve, Inv, SumsFit, RoundTotal, Resolve, SetBit, NetDue, FeeDue, Funded, SameWindow, SameChairs,
         NetNow, WillOverpay, SettlePool, Awaiting, TriggerInternal;
    ReachableStatesAreSound(hash, s);
    TriggerSettlesExactly(hash, s, 0, true, true);
    assert Outcome(hash, s, CallTrigger(FIRST, 0, true, true)) == TriggerInternal(hash, s, 0, true, true);
    TriggerKeepsWindow(hash, s, 0, true, true);
    t := TriggerInternal(hash, s, 0, true, true).value;
    var x := TriggerPays(hash, s, 0, true, true);
    FundedSeat(hash, t);
    OutcomeIsReachable(hash, s, CallTrigger(FIRST, 0, true, true));
  }

  lemma FundedSeat(hash: Hash, t: Storage)
    requires Inv(Funded()) && Resolve(hash, Funded(), 0).Ok? && Resolve(hash, Funded(), 0).value.recipient == FIRST
    requires TriggerInternal(hash, Funded(), 0, true, true) == Ok(t)
    ensures t.circle.bitmap == SetBit(0, 0) && SameChairs(Funded().members, t.members)
    ensures t.circle == Funded().circle.(bitmap := t.circle.bitmap, currentRound := 1, totalPayouts := t.circle.totalPayouts,
                                         totalFees := t.circle.totalFees)
  {
    var s := Funded();
    FundedShape();
    hide Funded, Resolve, SetBit, SameChairs, TriggerInternal, Settles, Inv;
    var k, x := TriggerSettlesResolved(hash, s, t);
    FirstSeat(s, t, k, x);
  }

  /** A trigger settles the round for whom it resolves. */
  lemma TriggerSettlesResolved(hash: Hash, s: Storage, t: Storage) returns (k: nat, x: Settlement)
    requires Inv(s) && TriggerInternal(hash, s, s.circle.currentRound, true, true) == Ok(t)
    ensures Resolve(hash, s, s.circle.currentRound).Ok?
    ensures Settles(s, t, k, x) && x.recipient == Resolve(hash, s, s.circle.currentRound).value.recipient
  {
    hide Resolve, SettlePool, CanResolve, SeatsSound, MarksSound, VrfSound, LogSound, BooksSound, BidsSound, Awaiting, WindowClosed,
         RoundContributors, PaysShares, NetsPool, Settles, Resolved, TooYoung;
    var res := Resolve(hash, s, s.circle.currentRound).value;
    ResolutionIsSound(hash, s);
    k, x := SettlePoolSettles(s, res, true, true);
  }

  lemma FirstSeat(s: Storage, t: Storage, k: nat, x: Settlement)
    requires Settles(s, t, k, x) && x.recipient == FIRST && s.members == [NewMember(FIRST, 0, 0), NewMember(SECOND, 1, 0)]
    requires s.circle.bitmap == 0 && s.circle.currentRound == 0 && s.circle.totalRounds == 2
    ensures t.circle.bitmap == SetBit(0, 0) && SameChairs(s.members, t.members)
    ensures t.circle == s.circle.(bitmap := t.circle.bitmap, currentRound := 1, totalPayouts := t.circle.totalPayouts,
                                  totalFees := t.circle.totalFees)
  {
    hide SetBit, SameChairs, Bit, LedgersSound, SettlementSound, Resolved, Received, ScanTotal;
    assert k == 0;
  }

  lemma NextSettles(hash: Hash, t: Storage)
    requires Reachable(hash, t) && SameWindow(Funded(), t) && t.circle.bitmap == SetBit(0, 0) && SameChairs(Funded().members, t.members)
    requires t.circle == Funded().circle.(bitmap := t.circle.bitmap, currentRound := 1, totalPayouts := t.circle.totalPayouts,
                                          totalFees := t.circle.totalFees)
    ensures Outcome(hash, t, CallTrigger(FIRST, 1, true, true)).Ok?
    ensures |Outcome(hash, t, CallTrigger(FIRST, 1, true, true)).value.history.settlements| == |t.history.settlements| + 1
    ensures t.history.settlements <= Outcome(hash, t, CallTrigger(FIRST, 1, true, true)).value.history.settlements
  {
    NextIsDue(hash, t);
    FundedShape();
    hide Reachable, TriggerDue, Inv, SetBit, Funded, SameChairs, SameWindow, TriggerInternal, PaysShares, NetNow, WillOverpay, RoundTotal,
         Resolve, Outcome, Full;
    NextTriggers(hash, t);
    ReachableStatesAreSound(hash, t);
    var x := TriggerPays(hash, t, 1, true, true);
    OrganizerTriggers(hash, t, 1);
  }

  lemma OrganizerTriggers(hash: Hash, t: Storage, round: uint32)
    ensures Outcome(hash, t, CallTrigger(t.circle.organizer, round, true, true)) == TriggerInternal(hash, t, round, true, true)
  {
    hide TriggerInternal;
  }

  lemma NextTriggers(hash: Hash, t: Storage)
    requires Reachable(hash, t) && SameWindow(Funded(), t) && TriggerDue(t, 1) && t.circle.currentRound == 1
    ensures TriggerInternal(hash, t, 1, true, true).Ok?
  {
    hide Reachable, CanResolve, Inv, SumsFit, Resolve, Funded, SameWindow, TriggerInternal, RoundTotal, Awaiting, WindowClosed, TooYoung;
    NextPool(hash, t);
    ReachableTermsAreSound(hash, t);
    ReachableStatesAreSound(hash, t);
    TriggerSettlesExactly(hash, t, 1, true, true);
    assert CanPay(t, Resolvee(hash, t), true, true);
  }

  lemma NextPool(hash: Hash, t: Storage)
    requires Reachable(hash, t) && SameWindow(Funded(), t)
    ensures RoundTotal(t, 1) == 0
  {
    FundedShape();
    hide Reachable, Funded, RoundTotal;
    CachesAreScans(hash, t, 1, FIRST);
    NoTotalWithoutEntries(t.contributions, 1);
    hide ScanTotal;
  }

  lemma NextIsDue(hash: Hash, t: Storage)
    requires SameWindow(Funded(), t) && t.circle.bitmap == SetBit(0, 0) && SameChairs(Funded().members, t.members)
    requires t.circle == Funded().circle.(bitmap := t.circle.bitmap, currentRound := 1, totalPayouts := t.circle.totalPayouts,
                                          totalFees := t.circle.totalFees)
    ensures TriggerDue(t, 1)
  {
    NoBits(1);
    BitAfterSet(0, 0, 1);
    FundedShape();
    hide Bit, SetBit, Awaiting, Funded;
    assert t.members[1].status == InGoodStanding && t.members[1].position == 1;
    assert UnpaidSeat(t.circle, t.members, 1);
  }

  // ----- strikes at the end of their range -----

  const LATE: Contribution := Contribution(FIRST, 0, 100, 150, false)

  /** The first member has contributed within the grace period. */
  function Tardy(): Storage {
    Logged(Full(0, Fixed, 100, 1000, U32_MAX).(now := 150), LATE)
  }

  lemma TardyIsReachable(hash: Hash)
    ensures Reachable(hash, Tardy())
  {
    hide Reachable;
    var s := Full(0, Fixed, 100, 1000, U32_MAX);
    FullIsReachable(hash, 0, Fixed, 100, 1000, U32_MAX);
    StepIsReachable(hash, s, Tick(150, 0));
    var late := s.(now := 150);
    TardyContributes();
    hide Contribute, Logged;
    assert Outcome(hash, late, CallContribute(FIRST, 100, 0, true)) == Ok(Tardy());
    StepIsReachable(hash, late, CallContribute(FIRST, 100, 0, true));
  }

  lemma TardyContributes()
    ensures Contribute(Full(0, Fixed, 100, 1000, U32_MAX).(now := 150), FIRST, 100, 0, true) == Ok(Tardy())
  {
  }

  /** The first member of an active circle can be reported for the first round, and has so many strikes. */
  ghost predicate Reportable(s: Storage, strikes: int) {
    && s.circle.status == Active && |s.members| > 0 && s.members[0].address == FIRST && WasLate(s.contributions, FIRST, 0)
    && s.members[0].strikes == strikes
  }

  lemma TardyIsReportable()
    ensures Reportable(Tardy(), 0)
  {
    assert Tardy().contributions == [LATE] && Tardy().contributions[0].member == FIRST;
  }

  lemma ReportCounts(hash: Hash, s: Storage, strikes: int)
    requires Reachable(hash, s) && Reportable(s, strikes) && strikes + 2 <= U32_MAX
    ensures Outcome(hash, s, CallReport(FIRST, 0)).Ok? && Reportable(Outcome(hash, s, CallReport(FIRST, 0)).value, strikes + 2)
  {
    hide Reachable, WasLate, ReportLate, Inv;
    assert Seated(s.members) by { ReachableStatesAreSound(hash, s); SeatsOfInv(s); }
    hide Seated;
    LateReportStrikesTwice(s, FIRST, 0, 0);
    ReportedFirst(s);
  }

  lemma SeatsOfInv(s: Storage)
    requires Inv(s)
    ensures Seated(s.members)
  {
    hide MarksSound, VrfSound, LogSound, BooksSound, BidsSound, Seated;
  }

  lemma ReportedFirst(s: Storage)
    requires ReportLate(s, FIRST, 0).Ok? && |s.members| > 0
    ensures |ReportLate(s, FIRST, 0).value.members| == |s.members|
    ensures ReportLate(s, FIRST, 0).value.members[0].address == s.members[0].address
    ensures ReportLate(s, FIRST, 0).value.circle == s.circle && ReportLate(s, FIRST, 0).value.contributions == s.contributions
  {
    hide ReportUpTo, WasLate, NoNewStanding;
    ReportUpToIsQuiet(s, FIRST, 0, |s.members|);
  }

  /** Each report adds two. */
  lemma {:induction false} ReportsAddUp(hash: Hash, s: Storage, strikes: int, n: nat) returns (t: Storage)
    requires Reachable(hash, s) && Reportable(s, strikes) && strikes + 2 * n <= U32_MAX
    ensures Reachable(hash, t) && Reportable(t, strikes + 2 * n)
  {
    hide Reachable, Reportable, Outcome;
    if n == 0 {
      t := s;
    } else {
      t := ReportsAddUp(hash, s, strikes, n - 1);
      ReportCounts(hash, t, strikes + 2 * (n - 1));
      OutcomeIsReachable(hash, t, CallReport(FIRST, 0));
      t := Outcome(hash, t, CallReport(FIRST, 0)).value;
    }
  }

  /** After enough reports the next one fails, because its second strike overflows. */
  lemma ReportOverflows(hash: Hash) returns (s: Storage)
    ensures Reachable(hash, s) && Reportable(s, U32_MAX - 1) && ReportLate(s, FIRST, 0) == Err(InvalidAmount)
  {
    hide Reachable, Tardy, ReportLate, WasLate;
    TardyIsReachable(hash);
    TardyIsReportable();
    s := ReportsAddUp(hash, Tardy(), 0, U32_MAX / 2);
    assert Seated(s.members) by { ReachableStatesAreSound(hash, s); SeatsOfInv(s); }
    hide Seated;
    LateReportStrikesTwice(s, FIRST, 0, 0);
  }

  /** The first member has also been penalized once by a dispute. */
  function Penalized(): Storage {
    var s := Tardy();
    s.(members := [s.members[0].(strikes := 1, status := Defaulted), s.members[1]],
       dispute := Some(Dispute(FIRST, 150, 150, 2, FIRST)))
  }

  lemma PenalizedIsReachable(hash: Hash)
    ensures Reachable(hash, Penalized())
  {
    hide Reachable;
    var s := Tardy();
    TardyIsReachable(hash);
    var disputed := s.(circle := s.circle.(status := Disputed), dispute := Some(Dispute(FIRST, 150, 0, 0, 0)));
    assert Outcome(hash, s, CallDispute(FIRST)) == Ok(disputed);
    StepIsReachable(hash, s, CallDispute(FIRST));
    assert IndexOfMember(disputed.members, FIRST, 0) == Some(0);
    assert DefaultedFirst(disputed.members, FIRST) == Penalized().members;
    assert Outcome(hash, disputed, CallResolve(FIRST, 2, true)) == Ok(Penalized());
    StepIsReachable(hash, disputed, CallResolve(FIRST, 2, true));
  }

  /** With an odd strike before them the reports reach the top, and the next one starts over at one. */
  lemma ReportStartsOver(hash: Hash) returns (s: Storage)
    ensures Reachable(hash, s) && Reportable(s, U32_MAX)
    ensures ReportLate(s, FIRST, 0).Ok? && |ReportLate(s, FIRST, 0).value.members| > 0 && ReportLate(s, FIRST, 0).value.members[0].strikes == 1
  {
    PenalizedIsReportable();
    hide Reachable, Penalized, ReportLate, WasLate;
    PenalizedIsReachable(hash);
    s := ReportsAddUp(hash, Penalized(), 1, U32_MAX / 2);
    assert Seated(s.members) by { ReachableStatesAreSound(hash, s); SeatsOfInv(s); }
    hide Seated;
    LateReportStrikesTwice(s, FIRST, 0, 0);
    ReportedFirst(s);
  }

  lemma PenalizedIsReportable()
    ensures Reportable(Penalized(), 1)
  {
    assert Penalized().contributions == [LATE] && Penalized().contributions[0].member == FIRST;
  }

  // ----- more rounds than seats -----

  /** A circle of two seats and three rounds, which initialization accepts, never completes. */
  lemma ThreeRoundsNeverComplete(hash: Hash) returns (s: Storage)
    ensures Reachable(hash, s) && s.circle.maxMembers == 2 && s.circle.totalRounds == 3
    ensures forall calls :: !CompletedAfter(hash, s, calls)
  {
    var launch, config := Launch(FIRST, 5, 0, 0), CircleConfig(FIRST, 100, 2, 1, 3, 0, 0, 0, 0, 0, 1, 0);
    s := Init(launch, config).value;
    hide Reachable, Run, Inv, Owed, ScanContributors, IsInactiveMember;
    InitIsReachable(hash, launch, config);
    hide Init;
    forall calls
      ensures !CompletedAfter(hash, s, calls)
    {
      NeverCompletes(hash, s, calls);
    }
  }

  lemma NeverCompletes(hash: Hash, s: Storage, calls: seq<Call>)
    requires Reachable(hash, s) && s.circle.totalRounds > s.circle.maxMembers
    ensures !CompletedAfter(hash, s, calls)
  {
    hide Reachable, Run, Inv, Owed, ScanContributors, IsInactiveMember;
    RunsExtend(hash, s, calls);
    RunIsReachable(hash, s, calls);
    CompletedCirclesHaveRunTheirRounds(hash, Run(hash, s, calls));
  }
}
