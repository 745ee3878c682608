/** What settings and auction entries may hold, and what that says about deposits and Dutch prices. */
module CircleTerms {
  import opened Common
  import opened Vrf
  import opened CircleTypes
  import opened Payout
  import opened CircleOps
  import opened CircleInvariant
  import opened CircleSettlement
  import opened CircleProofs
  import opened CircleRuns
  import opened CircleFairness

  // ----- the terms on storage -----

  predicate DutchSound(a: DutchAuction) {
    a.floorBips <= a.startBips <= 10000 && a.decayPerLedger > 0 && a.expiryLedgers > 0
  }

  /** A bid holds the fixed contribution, or nothing when it cleared a Dutch round. */
  predicate Deposited(b: Bid, dutch: map<uint32, DutchAuction>, amount: int128) {
    b.deposit == if b.round in dutch then 0 else amount
  }

  predicate TermsSound(s: Storage) {
    && s.feeBps <= 10_000
    && (forall r :: r in s.dutch ==> DutchSound(s.dutch[r]))
    && (forall b :: b in s.bids ==> Deposited(b, s.dutch, s.circle.contributionAmount))
  }

  /** What the terms depend on stays, or shrinks. */
  ghost predicate SameTerms(s: Storage, s': Storage) {
    && s'.feeBps == s.feeBps && s'.dutch == s.dutch && s'.circle.contributionAmount == s.circle.contributionAmount
    && forall b :: b in s'.bids ==> b in s.bids
  }

  lemma SameTermsKeep(s: Storage, s': Storage)
    requires TermsSound(s) && SameTerms(s, s')
    ensures TermsSound(s')
  {
  }

  lemma UnchangedTerms(s: Storage, s': Storage)
    requires s'.feeBps == s.feeBps && s'.dutch == s.dutch && s'.bids == s.bids && s'.circle.contributionAmount == s.circle.contributionAmount
    ensures SameTerms(s, s')
  {
  }

  lemma {:induction false} DrainedWereBids(bids: seq<Bid>, round: uint32, winner: Address, cap: nat, i: nat)
    requires i <= |bids|
    ensures forall b :: b in DrainUpTo(bids, round, winner, cap, i).kept ==> b in bids
  {
    if i > 0 {
      DrainedWereBids(bids, round, winner, cap, i - 1);
    }
  }

  lemma {:induction false} OutsideWereBids(bids: seq<Bid>, round: uint32)
    ensures forall b :: b in BidsOutside(bids, round) ==> b in bids
  {
    if bids != [] {
      OutsideWereBids(bids[..|bids| - 1], round);
    }
  }

  lemma RefundKeepsTerms(s: Storage, round: uint32, limit: uint32, hostOk: bool)
    requires RefundLosingBids(s, round, limit, hostOk).Ok?
    ensures SameTerms(s, RefundLosingBids(s, round, limit, hostOk).value)
  {
    hide DrainUpTo, AsRefunds;
    DrainedWereBids(s.bids, round, s.winners[round], Min(limit, LOSER_REFUND_BATCH_CAP), |s.bids|);
  }

  lemma CancelKeepsTerms(s: Storage, caller: Address, hostOk: bool)
    requires CancelAuction(s, caller, hostOk).Ok?
    ensures SameTerms(s, CancelAuction(s, caller, hostOk).value)
  {
    hide BidsOutside, CancelRefund;
    OutsideWereBids(s.bids, s.circle.currentRound);
  }

  lemma BidKeepsTerms(s: Storage, bidder: Address, discountBips: uint32, round: uint32, hostOk: bool)
    requires TermsSound(s) && AuctionBid(s, bidder, discountBips, round, hostOk).Ok?
    ensures TermsSound(AuctionBid(s, bidder, discountBips, round, hostOk).value)
  {
    hide HasBid;
  }

  lemma InitDutchKeepsTerms(s: Storage, caller: Address, round: uint32, startBips: uint32, floorBips: uint32, decay: uint32, expiry: uint32)
    requires TermsSound(s) && InitDutchAuction(s, caller, round, startBips, floorBips, decay, expiry).Ok?
    ensures TermsSound(InitDutchAuction(s, caller, round, startBips, floorBips, decay, expiry).value)
  {
    forall b | b in s.bids
      ensures b.round != round
    {
      var i :| 0 <= i < |s.bids| && s.bids[i] == b;
    }
  }

  lemma DutchBidKeepsTerms(s: Storage, bidder: Address, round: uint32)
    requires TermsSound(s) && DutchAuctionBid(s, bidder, round).Ok?
    ensures TermsSound(DutchAuctionBid(s, bidder, round).value)
  {
    hide DutchPrice;
  }

  lemma FeesKeepTerms(s: Storage, feeBps: uint32)
    requires TermsSound(s) && feeBps <= 10_000
    ensures forall treasury :: TermsSound(s.(treasury := treasury, feeBps := feeBps)) && TermsSound(s.(feeBps := feeBps))
  {
  }

  lemma SettingKeepsTerms(hash: Hash, s: Storage, c: Call)
    requires TermsSound(s) && (c.CallSetFee? || c.CallConfigure?)
    ensures TermsSound(Settled(s, Outcome(hash, s, c)))
  {
    hide TermsSound;
    if c.feeBps <= 10_000 {
      FeesKeepTerms(s, c.feeBps);
    }
  }

  /** Calls that touch neither bids nor Dutch entries nor the fee. */
  predicate KeepsTerms(c: Call) {
    !c.CallBid? && !c.CallRefund? && !c.CallInitDutch? && !c.CallDutchBid? && !c.CallCancelAuction? && !c.CallSetFee? && !c.CallConfigure?
  }

  lemma EntryKeepsTerms(s: Storage, recipient: Address, amount: int128)
    requires PayBatchEntry(s, recipient, amount).Ok?
    ensures SameTerms(s, PayBatchEntry(s, recipient, amount).value)
  {
    hide BatchFee, BatchNet, IndexOfMember, SameTerms;
    UnchangedTerms(s, PayBatchEntry(s, recipient, amount).value);
  }

  lemma SameTermsChain(s: Storage, t: Storage, u: Storage)
    requires SameTerms(s, t) && SameTerms(t, u)
    ensures SameTerms(s, u)
  {
  }

  lemma {:induction false} BatchKeepsTerms(s: Storage, recipients: seq<Address>, amounts: seq<int128>, i: nat)
    requires i <= |recipients| == |amounts| && BatchUpTo(s, recipients, amounts, i).Ok?
    ensures SameTerms(s, BatchUpTo(s, recipients, amounts, i).value)
  {
    if i > 0 {
      hide PayBatchEntry, SameTerms;
      BatchKeepsTerms(s, recipients, amounts, i - 1);
      EntryKeepsTerms(BatchUpTo(s, recipients, amounts, i - 1).value, recipients[i - 1], amounts[i - 1]);
      SameTermsChain(s, BatchUpTo(s, recipients, amounts, i - 1).value, BatchUpTo(s, recipients, amounts, i).value);
    }
  }

  lemma PayingKeepsTerms(s: Storage, recipient: Address, yieldOk: bool, hostOk: bool)
    requires SettlePool(s, recipient, yieldOk, hostOk).Ok?
    ensures SameTerms(s, SettlePool(s, recipient, yieldOk, hostOk).value)
  {
    hide Distribute, RecordRoundFee, RoundTotal, MarkPaid;
  }

  lemma TriggerKeepsTerms(hash: Hash, s: Storage, round: uint32, yieldOk: bool, hostOk: bool)
    requires TriggerInternal(hash, s, round, yieldOk, hostOk).Ok?
    ensures SameTerms(s, TriggerInternal(hash, s, round, yieldOk, hostOk).value)
  {
    hide Resolve, SettlePool, WindowClosed, Awaiting, TooYoung;
    var res := Resolve(hash, s, round).value;
    PayingKeepsTerms(s.(vrf := res.vrf, winners := res.winners), res.recipient, yieldOk, hostOk);
  }

  lemma MembersKeepTerms(hash: Hash, s: Storage, c: Call)
    requires c.CallJoin? || c.CallInvite? || c.CallContribute?
    ensures SameTerms(s, Settled(s, Outcome(hash, s, c)))
  {
    hide InviteUpTo, MarkStatus, Penalize, CheckedStatus, Timeliness, IndexOfMember, StruckIn, WithTotal, WithContributor,
         CheckContributionDeadline, TriggerPayout, BatchPayout, AuctionBid, RefundLosingBids, InitDutchAuction, DutchAuctionBid,
         CancelAuction, VotePayout, Exit, ReportLate, CancelCircle, RaiseDispute, ResolveDispute, SchedulePayout, SetFeeBps, SetTreasury,
         ConfigureFromFactory, Ticked, SameTerms;
    UnchangedTerms(s, Settled(s, Outcome(hash, s, c)));
  }

  lemma PayoutsKeepTerms(hash: Hash, s: Storage, c: Call)
    requires (c.CallBatch? || c.CallTrigger? || c.CallDeadline? || c.CallReport?) && Outcome(hash, s, c).Ok?
    ensures SameTerms(s, Outcome(hash, s, c).value)
  {
    hide ReportUpTo, BatchUpTo, TriggerInternal, Swept, WindowClosed, WithReported;
    match c
    case CallReport(member, round) => ReportUpToIsQuiet(s, member, round, |s.members|);
    case CallBatch(_, recipients, amounts, _, _) => BatchKeepsTerms(s, recipients, amounts, |recipients|);
    case CallTrigger(_, round, yieldOk, hostOk) => TriggerKeepsTerms(hash, s, round, yieldOk, hostOk);
    case CallDeadline(yieldOk, hostOk) =>
      SweptKeepsTerms(s);
      TriggerKeepsTerms(hash, Swept(s, s.circle.currentRound), s.circle.currentRound, yieldOk, hostOk);
  }

  lemma OtherSettingsKeepTerms(hash: Hash, s: Storage, c: Call)
    requires c.CallExit? || (IsSetting(c) && !c.CallSetFee? && !c.CallConfigure?)
    requires Outcome(hash, s, c).Ok?
    ensures SameTerms(s, Outcome(hash, s, c).value)
  {
    hide Exit, VotePayout, CancelCircle, RaiseDispute, ResolveDispute, SchedulePayout, SetTreasury, Ticked, Join, BatchInvite, Contribute,
         CheckContributionDeadline, TriggerPayout, BatchPayout, AuctionBid, RefundLosingBids, InitDutchAuction, DutchAuctionBid,
         CancelAuction, ReportLate, SetFeeBps, ConfigureFromFactory, SameTerms;
    match c
    case CallExit(member, penaltyOk, hostOk) => ExitKeepsTerms(s, member, penaltyOk, hostOk);
    case CallVote(voter, voteFor, round) => BallotKeepsTerms(s, voter, voteFor, round);
    case CallResolve(caller, resolution, hostOk) => ResolutionKeepsTerms(s, caller, resolution, hostOk);
    case CallCancelCircle(caller, hostOk) => CancelCircleKeepsTerms(s, caller, hostOk);
    case CallDispute(member) => DisputeKeepsTerms(s, member);
    case CallSchedule(caller, round) => ScheduleKeepsTerms(s, caller, round);
    case CallSetTreasury(caller, treasury) => TreasuryKeepsTerms(s, caller, treasury);
    case Tick(elapsed, ledgers) => TickKeepsTerms(s, elapsed, ledgers);
  }

  lemma ExitKeepsTerms(s: Storage, member: Address, penaltyOk: bool, hostOk: bool)
    requires Exit(s, member, penaltyOk, hostOk).Ok?
    ensures SameTerms(s, Exit(s, member, penaltyOk, hostOk).value)
  {
    hide WithDeparted, IsInactiveMember;
  }

  lemma BallotKeepsTerms(s: Storage, voter: Address, voteFor: Address, round: uint32)
    requires VotePayout(s, voter, voteFor, round).Ok?
    ensures SameTerms(s, VotePayout(s, voter, voteFor, round).value)
  {
    hide IsInactiveMember, IsActiveMember, HasVoted;
  }

  lemma ResolutionKeepsTerms(s: Storage, caller: Address, resolution: uint32, hostOk: bool)
    requires ResolveDispute(s, caller, resolution, hostOk).Ok?
    ensures SameTerms(s, ResolveDispute(s, caller, resolution, hostOk).value)
  {
    hide ResolveDispute, SameTerms, SameSeats, NoNewStanding, StrangersGrow, BallotsGrow;
    DisputeStands(s, caller, resolution, hostOk);
    ResolutionKeepsFee(s, caller, resolution, hostOk);
    UnchangedTerms(s, ResolveDispute(s, caller, resolution, hostOk).value);
  }

  lemma ResolutionKeepsFee(s: Storage, caller: Address, resolution: uint32, hostOk: bool)
    requires ResolveDispute(s, caller, resolution, hostOk).Ok?
    ensures ResolveDispute(s, caller, resolution, hostOk).value.feeBps == s.feeBps
  {
    hide DefaultedFirst, Cleared;
  }

  lemma CancelCircleKeepsTerms(s: Storage, caller: Address, hostOk: bool)
    requires CancelCircle(s, caller, hostOk).Ok?
    ensures SameTerms(s, CancelCircle(s, caller, hostOk).value)
  {
  }

  lemma DisputeKeepsTerms(s: Storage, member: Address)
    requires RaiseDispute(s, member).Ok?
    ensures SameTerms(s, RaiseDispute(s, member).value)
  {
  }

  lemma ScheduleKeepsTerms(s: Storage, caller: Address, round: uint32)
    requires SchedulePayout(s, caller, round).Ok?
    ensures SameTerms(s, SchedulePayout(s, caller, round).value)
  {
  }

  lemma TreasuryKeepsTerms(s: Storage, caller: Address, treasury: Address)
    requires SetTreasury(s, caller, treasury).Ok?
    ensures SameTerms(s, SetTreasury(s, caller, treasury).value)
  {
  }

  lemma TickKeepsTerms(s: Storage, elapsed: nat, ledgers: nat)
    ensures SameTerms(s, Ticked(s, elapsed, ledgers))
  {
  }

  lemma OthersKeepTerms(hash: Hash, s: Storage, c: Call)
    requires KeepsTerms(c)
    ensures SameTerms(s, Settled(s, Outcome(hash, s, c)))
  {
    hide Outcome;
    if c.CallJoin? || c.CallInvite? || c.CallContribute? {
      MembersKeepTerms(hash, s, c);
    } else if c.CallBatch? || c.CallTrigger? || c.CallDeadline? || c.CallReport? {
      if Outcome(hash, s, c).Ok? {
        PayoutsKeepTerms(hash, s, c);
      }
    } else if Outcome(hash, s, c).Ok? {
      OtherSettingsKeepTerms(hash, s, c);
    }
  }

  lemma SweptKeepsTerms(s: Storage)
    ensures SameTerms(s, Swept(s, s.circle.currentRound))
  {
    hide SweepUpTo;
  }

  lemma StepKeepsTerms(hash: Hash, s: Storage, c: Call)
    requires TermsSound(s)
    ensures TermsSound(Settled(s, Outcome(hash, s, c)))
  {
    hide TermsSound, SameTerms, AuctionBid, RefundLosingBids, InitDutchAuction, DutchAuctionBid, CancelAuction, Join, BatchInvite, Contribute,
         CheckContributionDeadline, TriggerPayout, BatchPayout, VotePayout, Exit, ReportLate, CancelCircle, RaiseDispute, ResolveDispute,
         SchedulePayout, SetTreasury, SetFeeBps, ConfigureFromFactory, Ticked;
    var out := Outcome(hash, s, c);
    if KeepsTerms(c) {
      OthersKeepTerms(hash, s, c);
      SameTermsKeep(s, Settled(s, out));
    } else if c.CallSetFee? || c.CallConfigure? {
      SettingKeepsTerms(hash, s, c);
    } else if out.Ok? {
      match c
      case CallBid(b, d, r, h) => BidKeepsTerms(s, b, d, r, h);
      case CallRefund(r, limit, h) => RefundKeepsTerms(s, r, limit, h); SameTermsKeep(s, out.value);
      case CallInitDutch(caller, r, start, floor, decay, expiry) => InitDutchKeepsTerms(s, caller, r, start, floor, decay, expiry);
      case CallDutchBid(b, r) => DutchBidKeepsTerms(s, b, r);
      case CallCancelAuction(caller, h) => CancelKeepsTerms(s, caller, h); SameTermsKeep(s, out.value);
    }
  }

  lemma {:induction false} RunKeepsTerms(hash: Hash, s: Storage, calls: seq<Call>)
    requires TermsSound(s)
    ensures TermsSound(Run(hash, s, calls))
  {
    if calls != [] {
      hide Outcome, TermsSound;
      RunKeepsTerms(hash, s, calls[..|calls| - 1]);
      StepKeepsTerms(hash, Run(hash, s, calls[..|calls| - 1]), calls[|calls| - 1]);
    }
  }

  /** In every reachable circle the fee is at most the whole, Dutch entries are well formed, and each bid
      holds the fixed contribution, or nothing when its round has a Dutch entry. */
  lemma ReachableTermsAreSound(hash: Hash, s: Storage)
    requires Reachable(hash, s)
    ensures s.feeBps <= 10_000
    ensures forall r :: r in s.dutch ==> DutchSound(s.dutch[r])
    ensures forall b :: b in s.bids ==> b.deposit == if b.round in s.dutch then 0 else s.circle.contributionAmount
  {
    hide Outcome, Run;
    var launch, config, calls :| Init(launch, config).Ok? && s == Run(hash, Init(launch, config).value, calls);
    RunKeepsTerms(hash, Init(launch, config).value, calls);
  }

  /** So the price of every configured Dutch round decays from its start to its floor. */
  lemma ReachableDutchPricesDecay(hash: Hash, s: Storage, round: uint32, sequence: uint32, later: uint32)
    requires Reachable(hash, s) && round in s.dutch && s.dutch[round].startLedger <= sequence <= later
    ensures var a := s.dutch[round];
            && a.floorBips <= DutchPrice(a, later) <= DutchPrice(a, sequence) <= a.startBips <= 10000
            && DutchPrice(a, sequence) == Max(a.floorBips, a.startBips - a.decayPerLedger * (sequence - a.startLedger))
  {
    hide Reachable, DutchPrice;
    ReachableTermsAreSound(hash, s);
    DutchPriceDecays(s.dutch[round], sequence, later);
  }

  // ----- what a cancelled auction returns -----

  /** The deposits behind a list of bids. */
  function Deposits(bids: seq<Bid>): int {
    if bids == [] then 0 else Deposits(bids[..|bids| - 1]) + bids[|bids| - 1].deposit
  }

  lemma DepositsSnoc(bids: seq<Bid>, b: Bid)
    ensures Deposits(bids + [b]) == Deposits(bids) + b.deposit
  {
    assert (bids + [b])[..|bids|] == bids;
  }

  /** Cancelling takes the deposits of the round's bids out of the list, and no others. */
  lemma {:induction false} CancellingDropsTheRoundsDeposits(bids: seq<Bid>, round: uint32)
    ensures Deposits(bids) == Deposits(BidsOutside(bids, round)) + Deposits(BidsOn(bids, round))
  {
    if bids != [] {
      var n := |bids| - 1;
      CancellingDropsTheRoundsDeposits(bids[..n], round);
      if bids[n].round == round {
        assert BidsOutside(bids, round) == BidsOutside(bids[..n], round);
        DepositsSnoc(BidsOn(bids[..n], round), bids[n]);
      } else {
        assert BidsOn(bids, round) == BidsOn(bids[..n], round);
        DepositsSnoc(BidsOutside(bids[..n], round), bids[n]);
      }
    }
  }

  lemma {:induction false} BidsOnAreBids(bids: seq<Bid>, round: uint32)
    ensures forall b :: b in BidsOn(bids, round) <==> b in bids && b.round == round
  {
    if bids != [] {
      BidsOnAreBids(bids[..|bids| - 1], round);
      assert bids == bids[..|bids| - 1] + [bids[|bids| - 1]];
    }
  }

  lemma {:induction false} EqualDeposits(bids: seq<Bid>, each: int)
    requires forall b :: b in bids ==> b.deposit == each
    ensures Deposits(bids) == |bids| * each
  {
    if bids != [] {
      var n := |bids| - 1;
      assert forall b :: b in bids[..n] ==> b in bids;
      EqualDeposits(bids[..n], each);
      assert bids[n] in bids;
      assert |bids| * each == n * each + each;
    }
  }

  /** What cancelling pays back altogether. */
  function PaidBack(refund: Option<(Address, int128)>): int {
    if refund.None? then 0 else refund.value.1
  }

  lemma TimesIsOnce(n: nat, c: nat)
    requires n > 0
    ensures n * c == c <==> c == 0 || n == 1
  {
    if n > 1 && c > 0 {
      assert (n - 1) * c > 0;
    }
  }

  /** Main result on cancelling: what is paid back equals the deposits dropped with the bids exactly when the
      contribution is nothing, nobody has bid on the round, or one bid stands on it that was not a Dutch one. */
  lemma CancellingReturnsDepositsExactlyWhen(hash: Hash, s: Storage)
    requires Reachable(hash, s)
    ensures var round := s.circle.currentRound;
            var on := BidsOn(s.bids, round);
            && CancelRefund(s).Ok?
            && Deposits(s.bids) - Deposits(BidsOutside(s.bids, round)) == Deposits(on)
            && (PaidBack(CancelRefund(s).value) == Deposits(on)
                <==> s.circle.contributionAmount == 0 || on == [] || (|on| == 1 && round !in s.dutch))
  {
    hide Reachable, BidsOn, BidsOutside, BestBid, Deposits;
    var round, amount := s.circle.currentRound, s.circle.contributionAmount;
    var on := BidsOn(s.bids, round);
    CancellingRefundsOneContribution(hash, s);
    CancellingDropsTheRoundsDeposits(s.bids, round);
    ReachableTermsAreSound(hash, s);
    BidsOnAreBids(s.bids, round);
    EqualDeposits(on, if round in s.dutch then 0 else amount);
    BestBidIsHighest(s.bids, round);
    assert BestBid(s.bids, round).None? <==> on == [] by { NoBestBidNoBids(s.bids, round); }
    AmountIsNonNegative(hash, s);
    if on != [] {
      TimesIsOnce(|on|, amount);
    }
  }

  lemma NoBestBidNoBids(bids: seq<Bid>, round: uint32)
    ensures BestBid(bids, round).None? <==> BidsOn(bids, round) == []
  {
    BestBidIsHighest(bids, round);
    BidsOnAreBids(bids, round);
    if BidsOn(bids, round) != [] {
      assert BidsOn(bids, round)[0] in BidsOn(bids, round);
    }
    if i :| 0 <= i < |bids| && bids[i].round == round {
      assert bids[i] in BidsOn(bids, round);
    }
  }

  lemma AmountIsNonNegative(hash: Hash, s: Storage)
    requires Reachable(hash, s)
    ensures s.circle.contributionAmount >= 0
  {
    ReachableStatesAreSound(hash, s);
    hide SeatsSound, MarksSound, VrfSound, BooksSound, BidsSound, CachesMatch;
  }
}
