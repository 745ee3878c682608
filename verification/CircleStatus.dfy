/** Strikes, exits and completion: what ends a member's standing or a circle's rounds, and what does not. */
module CircleStatus {
  import opened Common
  import opened Bitmap
  import opened Vrf
  import opened CircleTypes
  import opened CircleOps
  import opened CircleInvariant
  import opened CircleSettlement
  import opened CircleProofs
  import opened CircleRuns

  // ----- late reports -----

  /** A late report of a member with `strikes` strikes errs exactly at one below the top, where the checked
      strike overflows; otherwise it adds two, except that at the top the wrapping strike starts over and
      one is left. */
  lemma LateReportStrikesTwice(s: Storage, member: Address, round: uint32, k: nat)
    requires Seated(s.members) && k < |s.members| && s.members[k].address == member
    requires s.circle.status == Active && WasLate(s.contributions, member, round)
    ensures ReportLate(s, member, round).Ok? <==> s.members[k].strikes != U32_MAX - 1
    ensures ReportLate(s, member, round).Err? ==> ReportLate(s, member, round).error == InvalidAmount
    ensures ReportLate(s, member, round).Ok? ==>
              var m := ReportLate(s, member, round).value.members[k];
              && m.strikes == (if s.members[k].strikes == U32_MAX then 1 else s.members[k].strikes + 2)
              && (m.strikes == s.members[k].strikes + 2 <==> s.members[k].strikes < U32_MAX - 1)
              && m.status == (if m.strikes >= s.circle.maxStrikes then Defaulted else s.members[k].status)
  {
    ReportUpToErrs(s, member, round, k, |s.members|);
    hide ReportUpTo, WasLate;
  }

  lemma {:induction false} ReportUpToErrs(s: Storage, member: Address, round: uint32, k: nat, i: nat)
    requires Seated(s.members) && k < |s.members| && s.members[k].address == member && i <= |s.members|
    ensures ReportUpTo(s, member, round, i).Ok? <==> i <= k || ReportedStrikes(s.members[k]) <= U32_MAX
    ensures ReportUpTo(s, member, round, i).Err? ==> ReportUpTo(s, member, round, i).error == InvalidAmount
  {
    if i > 0 {
      hide RecordStrike, ReportedStrikes;
      ReportUpToErrs(s, member, round, k, i - 1);
    }
  }

  // ----- exits -----

  /** Leaving pays the collateral to whoever calls. It can be repeated exactly by a caller without a seat, whose
      exit changes nothing but the status cache. */
  lemma OnlyOutsidersExitTwice(s: Storage, a: Address, penaltyOk: bool, hostOk: bool)
    requires Seated(s.members) && Exit(s, a, penaltyOk, hostOk).Ok?
    ensures var left := Exit(s, a, penaltyOk, hostOk).value;
            && (Exit(left, a, true, true).Ok? <==> !HasMember(s.members, a))
            && (!HasMember(s.members, a) ==> left == s.(memberStatus := s.memberStatus[a := Exited]))
  {
    var left := Exit(s, a, penaltyOk, hostOk).value;
    if i :| 0 <= i < |s.members| && s.members[i].address == a {
      assert left.members[i].address == a && left.members[i].status == Exited;
    } else {
      assert left.members == s.members;
    }
  }

  /** A member's exit is their last: over any further run the collateral never goes to them by `exit` again. */
  lemma MembersExitOnce(hash: Hash, s: Storage, a: Address, penaltyOk: bool, hostOk: bool, calls: seq<Call>)
    requires Reachable(hash, s) && HasMember(s.members, a) && Exit(s, a, penaltyOk, hostOk).Ok?
    ensures var later := Run(hash, Exit(s, a, penaltyOk, hostOk).value, calls);
            forall p, h :: Exit(later, a, p, h).Err?
  {
    var left := Exit(s, a, penaltyOk, hostOk).value;
    assert IsInactiveMember(left.members, a) by {
      var i :| 0 <= i < |s.members| && s.members[i].address == a;
      assert left.members[i].address == a && left.members[i].status == Exited;
    }
    hide Reachable, IsInactiveMember, HasMember, Outcome, Run, WithDeparted;
    assert Outcome(hash, s, CallExit(a, penaltyOk, hostOk)) == Ok(left) by { OutcomeOfExit(hash, s, a, penaltyOk, hostOk); }
    OutcomeIsReachable(hash, s, CallExit(a, penaltyOk, hostOk));
    InactiveMembersAreNeverResolvedAgain(hash, left, calls, a, 0);
  }

  lemma OutcomeOfExit(hash: Hash, s: Storage, a: Address, penaltyOk: bool, hostOk: bool)
    ensures Outcome(hash, s, CallExit(a, penaltyOk, hostOk)) == Exit(s, a, penaltyOk, hostOk)
  {
  }

  // ----- completion -----

  /** Whether the call resolves a dispute: what may take a circle out of completion. */
  predicate Reopens(s: Storage, c: Call) {
    c.CallResolve? && c.caller == s.admin && s.dispute.Some? && 0 < c.resolution <= 4 && c.hostOk
  }

  /** The calls that ask for an active or pending circle. */
  predicate NeedsOpen(c: Call) {
    c.CallJoin? || c.CallContribute? || c.CallDeadline? || c.CallTrigger? || c.CallBatch? || c.CallReport? || c.CallCancelCircle?
    || c.CallDispute? || c.CallSchedule?
  }

  lemma ClosedCircleRefuses(hash: Hash, s: Storage, c: Call)
    requires s.circle.status != Active && s.circle.status != Pending && NeedsOpen(c)
    ensures Outcome(hash, s, c).Err?
  {
    hide Penalize, CheckedStatus, Timeliness, StruckIn, Resolve, SettlePool, Swept, WindowClosed, Awaiting, BatchUpTo, WasLate,
         ReportUpTo, WithReported, AuctionBid, RefundLosingBids, InitDutchAuction, DutchAuctionBid, CancelAuction, VotePayout, Exit,
         ResolveDispute, SetFeeBps, SetTreasury, ConfigureFromFactory, Ticked, BatchInvite;
  }

  lemma ExitsAndInvitationsKeepStatus(hash: Hash, s: Storage, c: Call)
    requires s.circle.status != Pending && (c.CallInvite? || c.CallExit?)
    ensures var s' := Settled(s, Outcome(hash, s, c));
            s'.circle.status == s.circle.status && s'.circle.currentRound == s.circle.currentRound && s'.dispute == s.dispute
  {
    hide InviteUpTo, MarkStatus, WithDeparted, IsInactiveMember, Join, Contribute, CheckContributionDeadline, TriggerPayout, BatchPayout,
         AuctionBid, RefundLosingBids, InitDutchAuction, DutchAuctionBid, CancelAuction, VotePayout, ReportLate, CancelCircle, RaiseDispute,
         ResolveDispute, SchedulePayout, SetFeeBps, SetTreasury, ConfigureFromFactory, Ticked;
  }

  lemma OtherCallsKeepCircle(hash: Hash, s: Storage, c: Call)
    requires !NeedsOpen(c) && !c.CallInvite? && !c.CallExit? && !c.CallResolve? && Outcome(hash, s, c).Ok?
    ensures Outcome(hash, s, c).value.circle == s.circle && Outcome(hash, s, c).value.dispute == s.dispute
  {
    hide RefundDrain, AsRefunds, BidsOutside, CancelRefund, IsInactiveMember, IsActiveMember, HasVoted, HasBid, AnyBid, DutchPrice, Join, BatchInvite,
         Contribute, CheckContributionDeadline, TriggerPayout, BatchPayout, Exit, ReportLate, CancelCircle, RaiseDispute, ResolveDispute,
         SchedulePayout;
  }

  /** A circle that is neither active nor pending keeps its status, round and dispute entry, whatever is called
      but a resolution. */
  lemma ClosedCircleKeeps(hash: Hash, s: Storage, c: Call)
    requires s.circle.status != Active && s.circle.status != Pending && !c.CallResolve?
    ensures var s' := Settled(s, Outcome(hash, s, c));
            s'.circle.status == s.circle.status && s'.circle.currentRound == s.circle.currentRound && s'.dispute == s.dispute
  {
    hide Outcome;
    if NeedsOpen(c) {
      ClosedCircleRefuses(hash, s, c);
    } else if c.CallInvite? || c.CallExit? {
      ExitsAndInvitationsKeepStatus(hash, s, c);
    } else if Outcome(hash, s, c).Ok? {
      OtherCallsKeepCircle(hash, s, c);
    }
  }

  lemma ResolutionOutcome(hash: Hash, s: Storage, c: Call)
    requires c.CallResolve?
    ensures Outcome(hash, s, c) == ResolveDispute(s, c.caller, c.resolution, c.hostOk)
  {
    hide ResolveDispute;
  }

  /** Nothing takes a circle out of completion but resolving a dispute entry it carries; and that always
      does. Without an entry, no call gives it one either. */
  lemma CompletionEndsOnlyByResolution(hash: Hash, s: Storage, c: Call)
    requires s.circle.status == Completed
    ensures Settled(s, Outcome(hash, s, c)).circle.status != Completed <==> Reopens(s, c)
    ensures s.dispute.None? ==> Settled(s, Outcome(hash, s, c)).dispute.None?
  {
    hide Outcome, DefaultedFirst, Cleared;
    if c.CallResolve? {
      ResolutionOutcome(hash, s, c);
    } else {
      ClosedCircleKeeps(hash, s, c);
    }
  }

  lemma {:induction false} CompletionLasts(hash: Hash, s: Storage, calls: seq<Call>)
    requires s.circle.status == Completed && s.dispute.None?
    ensures Run(hash, s, calls).circle.status == Completed && Run(hash, s, calls).dispute.None?
  {
    if calls != [] {
      hide Outcome;
      CompletionLasts(hash, s, calls[..|calls| - 1]);
      CompletionEndsOnlyByResolution(hash, Run(hash, s, calls[..|calls| - 1]), calls[|calls| - 1]);
    }
  }

  /** Still completed after these calls. */
  ghost predicate CompletedAfter(hash: Hash, s: Storage, calls: seq<Call>) {
    Run(hash, s, calls).circle.status == Completed
  }

  /** Completion is final exactly for a circle that never had a dispute raised. */
  lemma CompletionIsFinalWithoutDispute(hash: Hash, s: Storage)
    requires s.circle.status == Completed
    ensures (forall calls :: CompletedAfter(hash, s, calls)) <==> s.dispute.None?
  {
    if s.dispute.None? {
      forall calls
        ensures CompletedAfter(hash, s, calls)
      {
        CompletionLasts(hash, s, calls);
      }
    } else {
      var reopen := CallResolve(s.admin, 1, true);
      CompletionEndsOnlyByResolution(hash, s, reopen);
      hide Outcome;
      assert [reopen][..0] == [];
      assert Run(hash, s, [reopen]) == Settled(Run(hash, s, []), Outcome(hash, Run(hash, s, []), reopen));
      assert !CompletedAfter(hash, s, [reopen]);
    }
  }

  ghost predicate Finished(s: Storage) {
    s.circle.status == Completed ==> s.circle.currentRound >= s.circle.totalRounds
  }

  /** Anything but settling a round: it stays the round it was, at most one bit is set, and the circle
      does not become completed. */
  ghost predicate Calm(s: Storage, s': Storage) {
    && s'.circle.currentRound == s.circle.currentRound && s'.circle.totalRounds == s.circle.totalRounds
    && (s'.circle.status == Completed ==> s.circle.status == Completed)
    && (s'.circle.bitmap == s.circle.bitmap || exists k: nat :: s'.circle.bitmap == SetBit(s.circle.bitmap, k))
  }

  lemma StandsCalm(s: Storage, s': Storage)
    requires Stands(s, s')
    ensures Calm(s, s')
  {
    hide SameSeats, NoNewStanding, BallotsGrow, StrangersGrow, SetBit;
  }

  lemma RebidsCalm(s: Storage, s': Storage)
    requires Rebids(s, s')
    ensures Calm(s, s')
  {
    hide BidsOn, RoundsUpTo, AuctionsSound, SetBit;
  }

  lemma GrowsCalm(s: Storage, s': Storage)
    requires Grows(s, s')
    ensures Calm(s, s')
  {
    hide Seated, HasMember, SetBit;
  }

  lemma LogsCalm(s: Storage, s': Storage, c: Contribution)
    requires LogsOne(s, s', c)
    ensures Calm(s, s')
  {
    hide HasMember, Contributed, LedgersSound, SetBit, SumMap, WithTotal, WithContributor;
  }

  lemma BatchCalm(s: Storage, s': Storage, k: nat)
    requires UnmarkedPaid(s, s', k)
    ensures Calm(s, s')
  {
    hide SameChairs, Received, SetBit, Bit;
  }

  lemma RefundsCalm(s: Storage, s': Storage, round: uint32, limit: uint32)
    requires Refunds(s, s', round, limit)
    ensures Calm(s, s')
  {
    hide RefundDrain, AsRefunds, SetBit;
  }

  lemma MicroCalmOrSettles(s: Storage, s': Storage)
    requires Micro(s, s')
    ensures Calm(s, s') || exists k, x :: SettlesRound(s, s', k, x)
  {
    hide Stands, Rebids, Grows, LogsOne, UnmarkedPaid, SettlesRound, Refunds, Calm;
    if Stands(s, s') {
      StandsCalm(s, s');
    } else if Rebids(s, s') {
      RebidsCalm(s, s');
    } else if Grows(s, s') {
      GrowsCalm(s, s');
    } else if c :| LogsOne(s, s', c) {
      LogsCalm(s, s', c);
    } else if k :| UnmarkedPaid(s, s', k) {
      BatchCalm(s, s', k);
    } else if r, limit :| Refunds(s, s', r, limit) {
      RefundsCalm(s, s', r, limit);
    }
  }

  lemma MicroFinishes(s: Storage, s': Storage)
    requires Finished(s) && Micro(s, s')
    ensures Finished(s')
  {
    hide Micro, SetBit, Resolved, SameChairs, Received, SettlementSound, UnpaidSeat, LedgersSound, ScanTotal, PaysShares, NetsPool;
    MicroCalmOrSettles(s, s');
  }

  lemma {:induction false} TraceFinishes(t: seq<Storage>, i: nat)
    requires Trace(t) && i < |t| && Finished(t[0])
    ensures Finished(t[i])
  {
    hide Inv, Micro, Finished;
    if i > 0 {
      TraceFinishes(t, i - 1);
      MicroFinishes(t[i - 1], t[i]);
    }
  }

  /** A reachable completed circle has settled all its rounds; so one with more rounds than seats, which
      initialization accepts, never completes. */
  lemma CompletedCirclesHaveRunTheirRounds(hash: Hash, s: Storage)
    requires Reachable(hash, s)
    ensures s.circle.status == Completed ==> |s.history.settlements| == s.circle.currentRound >= s.circle.totalRounds
    ensures s.circle.totalRounds > s.circle.maxMembers ==> s.circle.status != Completed
  {
    hide Inv, Outcome, Micro;
    var launch, config, calls :| Init(launch, config).Ok? && s == Run(hash, Init(launch, config).value, calls);
    InitIsSound(launch, config);
    var t := RunTrace(hash, Init(launch, config).value, calls);
    TraceFinishes(t, |t| - 1);
    NobodyIsPaidTwice(hash, s);
  }
}
