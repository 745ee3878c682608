/** The circle contract performing its entry points in place, each proved against its transition. A failing
    call puts back what it had written, as the host's rollback does. */
module CircleContract {
  import opened Common
  import opened SafeMath
  import opened Bitmap
  import opened Vrf
  import opened CircleTypes
  import opened Payout
  import opened CircleOps
  import opened CircleLoops

  class Contract {
    const admin: Address
    const factory: Address
    const vrf: VrfStore
    var circle: Circle
    var members: seq<Member>
    var memberStatus: StatusCache
    var contributions: seq<Contribution>
    var memberContributed: set<(Address, uint32)>
    var roundTotals: map<uint32, int128>
    var roundContributors: map<uint32, seq<Address>>
    var roundStrikes: StrikeBook
    var payouts: seq<PayoutRecord>
    var feeLedgers: FeeLedgers
    var bids: seq<Bid>
    var votes: seq<VoteEntry>
    var winners: map<uint32, Address>
    var scheduled: set<uint32>
    var dutch: map<uint32, DutchAuction>
    var dispute: Option<Dispute>
    var feeBps: uint32
    var treasury: Option<Address>
    var now: uint64
    var sequence: uint32
    ghost var history: History

    ghost function View(): Storage
      reads this, vrf
    {
      Storage(circle, admin, factory, members, memberStatus, contributions, memberContributed, roundTotals, roundContributors, roundStrikes,
              payouts, feeLedgers, bids, votes, winners, scheduled, dutch, dispute, feeBps, treasury,
              VrfState(vrf.lastNonce, vrf.counter), now, sequence, history)
    }

    /** `init` with a configuration it accepts. */
    constructor (l: Launch, c: CircleConfig, vrf: VrfStore)
      requires CircleOps.Init(l, c).Ok? && vrf.View() == VrfState(None, 0)
      ensures CircleOps.Init(l, c) == Ok(View()) && this.vrf == vrf
    {
      admin, factory, this.vrf, now, sequence := l.admin, l.factory, vrf, l.now, l.sequence;
      circle := Circle(c.organizer, c.contributionAmount, c.maxMembers, 0, PayoutTypeOf(c.payoutType).value, c.totalRounds,
                       0, Pending, 0, l.now, c.deadlineSeconds, c.minScore, c.collateral, c.penaltyBps, c.graceSeconds,
                       c.maxStrikes, c.minDuration, 0, 0, 0);
      members, memberStatus, contributions, memberContributed := [], map[], [], {};
      roundTotals, roundContributors, roundStrikes, payouts, feeLedgers := map[], map[], map[], [], map[];
      bids, votes, winners, scheduled, dutch, dispute := [], [], map[], {}, map[], None;
      feeBps, treasury, history := 0, None, History([], [], 0, [], []);
    }

    // ----- membership -----

    /** Writes back what an admission changed. */
    method StoreMembers(c: Circle, list: seq<Member>, cache: StatusCache)
      modifies this`circle, this`members, this`memberStatus
      ensures View() == old(View()).(circle := c, members := list, memberStatus := cache)
    {
      circle, members, memberStatus := c, list, cache;
    }

    method Join(member: Address, score: uint32, permitted: bool, hostOk: bool) returns (r: Result<(), CircleError>)
      modifies this
      ensures Committed(old(View()), CircleOps.Join(old(View()), member, score, permitted, hostOk), View(), r)
    {
      if circle.status != Pending {
        return Err(NotActive);
      }
      :- Need(score >= circle.minScore, InsufficientMoiScore);
      :- Need(permitted, AllowlistNotPermitted);
      var seat := FindMember(members, member);
      :- Need(seat.None?, AlreadyMember);
      :- Need(|members| < circle.maxMembers, CircleFull);
      :- Need(circle.collateral <= 0 || hostOk, HostTrap);
      :- Need(circle.memberCount + 1 <= U32_MAX, InvalidAmount);
      var c := circle.(memberCount := circle.memberCount + 1);
      if c.memberCount >= c.maxMembers {
        c := c.(status := Active, startedAt := now);
      }
      StoreMembers(c, members + [NewMember(member, |members|, now)], memberStatus[member := InGoodStanding]);
      return Ok(());
    }

    method BatchInvite(caller: Address, invitees: seq<Address>, score: Address -> uint32) returns (r: Result<(), CircleError>)
      modifies this
      ensures Committed(old(View()), CircleOps.BatchInvite(old(View()), caller, invitees, score), View(), r)
    {
      hide InviteUpTo, MarkStatus;
      :- Need(caller == circle.organizer, NotOrganizer);
      :- Need(circle.status != Disputed && circle.status != Completed, NotActive);
      var list :- InviteAll(circle, members, invitees, score, now);
      var cache := MarkAll(memberStatus, invitees, InGoodStanding);
      var c := circle.(memberCount := |list|);
      if |list| >= c.maxMembers && c.status == Pending {
        c := c.(status := Active, startedAt := now);
      }
      StoreMembers(c, list, cache);
      return Ok(());
    }

    // ----- contributions -----

    /** The cached standing, or on a miss the member list's, which is then cached. */
    method CheckStanding(member: Address) returns (r: Result<StatusCache, CircleError>)
      ensures r == CheckedStatus(View(), member)
    {
      if member in memberStatus {
        return if memberStatus[member] != InGoodStanding then Err(InvalidMemberStatus) else Ok(memberStatus);
      }
      var seat := FindMember(members, member);
      if seat.None? {
        return Err(NotMember);
      } else if members[seat.value].status != InGoodStanding {
        return Err(InvalidMemberStatus);
      }
      return Ok(memberStatus[member := InGoodStanding]);
    }

    method AppendToLog(entry: Contribution)
      modifies this`contributions, this`memberContributed
      ensures View() == old(View()).(contributions := old(contributions) + [entry],
                                     memberContributed := old(memberContributed) + {(entry.member, entry.round)})
    {
      contributions := contributions + [entry];
      memberContributed := memberContributed + {(entry.member, entry.round)};
    }

    /** The per-round values computed at write time. */
    method UpdateCaches(entry: Contribution)
      modifies this`roundTotals, this`roundContributors
      ensures View() == old(View()).(roundTotals := WithTotal(old(roundTotals), entry),
                                     roundContributors := WithContributor(old(roundContributors), entry))
    {
      var total := if entry.round in roundTotals then roundTotals[entry.round] else 0;
      roundTotals := roundTotals[entry.round := SatAddI128(total, entry.amount)];
      var list := if entry.round in roundContributors then roundContributors[entry.round] else [];
      roundContributors := roundContributors[entry.round := list + [entry.member]];
    }

    method StoreStanding(cache: StatusCache, p: Penalized)
      modifies this`circle, this`feeLedgers, this`memberStatus
      ensures View() == old(View()).(memberStatus := cache, circle := old(circle).(totalFees := p.totalFees), feeLedgers := p.feeLedgers)
    {
      memberStatus, circle, feeLedgers := cache, circle.(totalFees := p.totalFees), p.feeLedgers;
    }

    /** A late contribution's penalty goes into the fee total and the round's ledger. */
    method LatePenalty(amount: int128, round: uint32, onTime: bool) returns (r: Result<Penalized, CircleError>)
      ensures r == Penalize(View(), amount, round, onTime)
    {
      hide CalculatePercentage, RecordRoundFee;
      if !onTime && circle.penaltyBps > 0 {
        var penalty := CalculatePercentage(amount, circle.penaltyBps);
        :- Need(penalty.Ok?, InvalidAmount);
        if penalty.value > 0 {
          :- Need(FitsI128(circle.totalFees + penalty.value), InvalidAmount);
          var ledgers :- RecordFee(feeLedgers, round, 0, penalty.value);
          return Ok(Penalized(circle.totalFees + penalty.value, ledgers));
        }
      }
      return Ok(Penalized(circle.totalFees, feeLedgers));
    }

    method Admit(member: Address, amount: int128, round: uint32) returns (r: Result<StatusCache, CircleError>)
      ensures r == Admitted(View(), member, amount, round)
    {
      hide CheckedStatus, StruckIn;
      :- Need(circle.status == Active, NotActive);
      :- Need(!StruckIn(roundStrikes, round, member), AlreadyStruck);
      :- Need(round == circle.currentRound, RoundNotCurrent);
      :- Need(round !in scheduled, PayoutAlreadyScheduled);
      :- Need(amount == circle.contributionAmount, ContributionMismatch);
      var cache :- CheckStanding(member);
      :- Need((member, round) !in memberContributed, AlreadyContributed);
      return Ok(cache);
    }

    method Contribute(member: Address, amount: int128, round: uint32, hostOk: bool) returns (r: Result<(), CircleError>)
      modifies this
      ensures Committed(old(View()), CircleOps.Contribute(old(View()), member, amount, round, hostOk), View(), r)
    {
      hide Admitted, Timeliness, Penalize, WithTotal, WithContributor;
      var cache :- Admit(member, amount, round);
      var onTime :- CheckTimeliness(circle, now);
      :- Need(hostOk, HostTrap);
      var p :- LatePenalty(amount, round, onTime);
      var entry := Contribution(member, round, amount, now, onTime);
      StoreStanding(cache, p);
      AppendToLog(entry);
      UpdateCaches(entry);
      return Ok(());
    }

    // ----- settling a round -----

    method ContributorsOf(round: uint32) returns (list: seq<Address>)
      ensures list == CircleOps.RoundContributors(View(), round)
    {
      if round in roundContributors {
        return roundContributors[round];
      }
      list := CollectContributors(contributions, round);
    }

    method ContributedTotal(round: uint32) returns (total: int128)
      ensures total == RoundTotal(View(), round)
    {
      if round in roundTotals {
        return roundTotals[round];
      }
      total := AddUpRound(contributions, round);
    }

    /** Picks the recipient and records an auction's winner. On an error only the generator may have moved. */
    method ResolveRecipient(round: uint32) returns (r: Result<Address, CircleError>)
      modifies vrf, this`winners
      ensures match Resolve(vrf.hash, old(View()), round)
              case Ok(res) => r == Ok(res.recipient) && View() == old(View()).(vrf := res.vrf, winners := res.winners)
              case Err(e) => r == Err(e) && winners == old(winners)
    {
      hide ResolveRandom, ResolveFixed, ResolveAuction, ResolveVote;
      match circle.payoutType {
        case Random => r := PickRandom(vrf, circle, members, round);
        case Fixed => r := PickFixed(circle, members, round);
        case Auction =>
          r := PickAuction(circle, members, bids, round);
          if r.Ok? {
            winners := winners[round := r.value];
          }
        case Vote => r := PickVote(circle, members, votes, round);
      }
    }

    /** Everything paid out of the net amount: shares by time weight for a random circle, then the rest to
        the resolved recipient. */
    method DistributeNet(recipient: Address, net: int128, fee: int128, info: RoundInfo) returns (r: Result<Dist, CircleError>)
      requires net > 0
      ensures r == Distribute(View(), recipient, net, fee, info)
    {
      hide Weigh, DistributeUpTo, PayShare;
      var d := Dist(members, 0, payouts + [PayoutRecord(recipient, info.round, net, fee, info.payoutType, info.now)]);
      if info.payoutType == Random {
        var weights := WeighRound(contributions, info.round, info.now);
        d :- DistributeShares(d, weights, net, info);
      }
      if d.distributed < net {
        :- Need(FitsI128(net - d.distributed), InvalidAmount);
        d :- PayMember(d, recipient, net - d.distributed, info);
      }
      return Ok(d);
    }

    method StoreRoster(c: Circle, list: seq<Member>)
      modifies this`circle, this`members
      ensures View() == old(View()).(circle := c, members := list)
    {
      circle, members := c, list;
    }

    /** Writes back what a payout changed. */
    method StorePayout(c: Circle, list: seq<Member>, records: seq<PayoutRecord>, ghost h: History)
      modifies this`circle, this`members, this`payouts, this`history
      ensures View() == old(View()).(circle := c, members := list, payouts := records, history := h)
    {
      StoreRoster(c, list);
      payouts := records;
      history := h;
    }

    /** The circle with the recipient's bit marked, moved to the next round. */
    method ClosedRound(recipient: Address) returns (c: Circle)
      requires circle.currentRound + 1 <= U32_MAX
      ensures c == Advance(circle).(bitmap := MarkPaid(circle.bitmap, members, recipient))
    {
      c := circle;
      var seat := FindMember(members, recipient);
      if seat.Some? {
        c := c.(bitmap := SetBit(c.bitmap, members[seat.value].position));
      }
      c := c.(currentRound := c.currentRound + 1);
      if c.currentRound >= c.totalRounds {
        c := c.(status := Completed);
      }
    }

    method BookSettlement(x: Settlement, d: Dist, ledgers: FeeLedgers, hostOk: bool) returns (r: Result<(), CircleError>)
      modifies this`circle, this`members, this`payouts, this`history, this`feeLedgers
      ensures Committed(old(View()), Book(old(View()), x, d, ledgers, hostOk), View(), r)
    {
      hide MarkPaid;
      :- Need(circle.currentRound + 1 <= U32_MAX, InvalidAmount);
      :- Need(FitsI128(circle.totalPayouts + x.paid), InvalidAmount);
      :- Need(FitsI128(circle.totalFees + x.fee), InvalidAmount);
      :- Need(hostOk, HostTrap);
      var c := ClosedRound(x.recipient);
      c := c.(totalPayouts := circle.totalPayouts + x.paid, totalFees := circle.totalFees + x.fee);
      StorePayout(c, d.members, d.payouts, history.(settlements := history.settlements + [x]));
      feeLedgers := ledgers;
      return Ok(());
    }

    method SettlePaidRound(recipient: Address, pool: int128, net: int128, fee: int128, hostOk: bool) returns (r: Result<(), CircleError>)
      requires net > 0
      modifies this`circle, this`members, this`payouts, this`history, this`feeLedgers
      ensures Committed(old(View()), SettlePaid(old(View()), recipient, pool, net, fee, hostOk), View(), r)
    {
      hide Distribute, RecordRoundFee, Book;
      var d :- DistributeNet(recipient, net, fee, RoundInfo(circle.currentRound, circle.payoutType, now));
      var ledgers := feeLedgers;
      if fee > 0 {
        ledgers :- RecordFee(feeLedgers, circle.currentRound, fee, 0);
      }
      r := BookSettlement(Settlement(recipient, pool, net, fee, d.distributed), d, ledgers, hostOk);
    }

    method SettleRound(recipient: Address, yieldOk: bool, hostOk: bool) returns (r: Result<(), CircleError>)
      modifies this`circle, this`members, this`payouts, this`history, this`feeLedgers
      ensures Committed(old(View()), SettlePool(old(View()), recipient, yieldOk, hostOk), View(), r)
    {
      hide RoundTotal, ApplyFee, SettlePaid, MarkPaid;
      var pool := ContributedTotal(circle.currentRound);
      var split := ApplyFee(pool, feeBps);
      :- Need(split.Ok?, InvalidAmount);
      if split.value.net <= 0 {
        :- Need(circle.currentRound + 1 <= U32_MAX, InvalidAmount);
        var c := ClosedRound(recipient);
        var records := payouts + [PayoutRecord(recipient, circle.currentRound, 0, 0, circle.payoutType, now)];
        StorePayout(c, members, records, history.(settlements := history.settlements + [Settlement(recipient, pool, 0, 0, 0)]));
        return Ok(());
      }
      :- Need(yieldOk, OracleUnavailable);
      r := SettlePaidRound(recipient, pool, split.value.net, split.value.fee, hostOk);
    }

    /** Settles the current round; on an error the generator and the recorded winner are put back. */
    method TriggerPayoutInternal(round: uint32, yieldOk: bool, hostOk: bool) returns (r: Result<(), CircleError>)
      modifies this, vrf
      ensures Committed(old(View()), TriggerInternal(vrf.hash, old(View()), round, yieldOk, hostOk), View(), r)
    {
      hide Resolve, CircleOps.RoundContributors, Awaiting, SettlePool, WindowClosed;
      :- Need(circle.status == Active, NotActive);
      :- Need(round == circle.currentRound, RoundNotCurrent);
      :- Need(!TooYoung(circle, now), CircleDurationTooShort);
      var nonce, counter, before := vrf.lastNonce, vrf.counter, winners;
      var recipient := ResolveRecipient(round);
      if recipient.Err? {
        vrf.lastNonce, vrf.counter := nonce, counter;
        return Err(recipient.error);
      }
      var contributors := ContributorsOf(round);
      var awaiting := CountAwaiting(members, contributors);
      assert contributors == CircleOps.RoundContributors(old(View()), round) by { ContributorsIgnoreResolution(old(View()), View(), round); }
      if !WindowClosed(circle, now) && awaiting > 0 {
        vrf.lastNonce, vrf.counter, winners := nonce, counter, before;
        return Err(InvalidContributionRound);
      }
      r := SettleRound(recipient.value, yieldOk, hostOk);
      if r.Err? {
        vrf.lastNonce, vrf.counter, winners := nonce, counter, before;
      }
    }

    method TriggerPayout(caller: Address, round: uint32, yieldOk: bool, hostOk: bool) returns (r: Result<(), CircleError>)
      modifies this, vrf
      ensures Committed(old(View()), CircleOps.TriggerPayout(vrf.hash, old(View()), caller, round, yieldOk, hostOk), View(), r)
    {
      if caller != circle.organizer && caller != admin {
        return Err(Unauthorized);
      }
      r := TriggerPayoutInternal(round, yieldOk, hostOk);
    }

    method StoreSweep(w: Sweep)
      modifies this`members, this`memberStatus, this`roundStrikes
      ensures View() == old(View()).(members := w.members, memberStatus := w.memberStatus, roundStrikes := w.roundStrikes)
    {
      members, memberStatus, roundStrikes := w.members, w.memberStatus, w.roundStrikes;
    }

    /** Strikes every active member without a contribution, then settles; the strikes are put back when
        settling fails. */
    method CheckContributionDeadline(yieldOk: bool, hostOk: bool) returns (r: Result<(), CircleError>)
      modifies this, vrf
      ensures Committed(old(View()), CircleOps.CheckContributionDeadline(vrf.hash, old(View()), yieldOk, hostOk), View(), r)
    {
      hide TriggerInternal, SweepUpTo, CircleOps.RoundContributors, WindowClosed;
      :- Need(circle.status == Active, NotActive);
      :- Need(circle.currentRound < circle.totalRounds, InvalidRound);
      :- Need(WindowClosed(circle, now), DeadlineNotPassed);
      var contributors := ContributorsOf(circle.currentRound);
      var before := Sweep(members, memberStatus, roundStrikes);
      var w := SweepMembers(before, circle.maxStrikes, circle.currentRound, contributors);
      StoreSweep(w);
      r := TriggerPayoutInternal(circle.currentRound, yieldOk, hostOk);
      if r.Err? {
        StoreSweep(before);
      }
    }

    // ----- batch payouts -----

    /** One entry: a member's bit must be clear and is set; the net amount goes out and is recorded. */
    method PayEntry(recipient: Address, amount: int128) returns (r: Result<(), CircleError>)
      modifies this`circle, this`members, this`payouts, this`history
      ensures Committed(old(View()), PayBatchEntry(old(View()), recipient, amount), View(), r)
    {
      hide Bit, SetBit, BatchFee, BatchNet;
      :- Need(amount > 0, InvalidAmount);
      var seat := FindMember(members, recipient);
      :- Need(seat.None? || !Bit(circle.bitmap, members[seat.value].position), PayoutAlreadyExecuted);
      var fee, net := BatchFee(amount, feeBps), BatchNet(amount, feeBps);
      :- Need(net >= 0, HostTrap);
      :- Need(fee <= 0 || treasury.Some?, NotInitialized);
      var c, list, records := circle, members, payouts + [PayoutRecord(recipient, circle.currentRound, net, fee, circle.payoutType, now)];
      ghost var h := history;
      if seat.Some? {
        var m := list[seat.value];
        :- Need(FitsI128(m.totalReceived + net), InvalidAmount);
        c := c.(bitmap := SetBit(c.bitmap, m.position));
        list := list[seat.value := m.(totalReceived := m.totalReceived + net)];
        h := h.(batchPaid := h.batchPaid + [recipient], batchNet := h.batchNet + net);
      } else {
        h := h.(strangersPaid := h.strangersPaid + [recipient]);
      }
      StorePayout(c, list, records, h);
      return Ok(());
    }

    /** Every entry in order, up to the first that fails. */
    method PayEntries(recipients: seq<Address>, amounts: seq<int128>) returns (r: Result<(), CircleError>)
      requires |recipients| == |amounts|
      modifies this`circle, this`members, this`payouts, this`history
      ensures match BatchUpTo(old(View()), recipients, amounts, |recipients|)
              case Ok(s) => View() == s && r == Ok(())
              case Err(e) => r == Err(e)
    {
      hide PayBatchEntry;
      ghost var before := View();
      for i := 0 to |recipients|
        modifies this`circle, this`members, this`payouts, this`history
        invariant BatchUpTo(before, recipients, amounts, i) == Ok(View())
      {
        r := PayEntry(recipients[i], amounts[i]);
        if r.Err? {
          BatchStops(before, recipients, amounts, i + 1, |recipients|);
          return;
        }
      }
      return Ok(());
    }

    method BatchPayout(caller: Address, recipients: seq<Address>, amounts: seq<int128>, round: uint32, hostOk: bool)
      returns (r: Result<(), CircleError>)
      modifies this`circle, this`members, this`payouts, this`history
      ensures Committed(old(View()), CircleOps.BatchPayout(old(View()), caller, recipients, amounts, round, hostOk), View(), r)
    {
      hide BatchUpTo;
      :- Need(caller == circle.organizer || caller == admin, Unauthorized);
      :- Need(circle.status == Active, NotActive);
      :- Need(round == circle.currentRound, RoundNotCurrent);
      :- Need(0 < |recipients| <= 10 && |recipients| == |amounts|, InvalidAmount);
      var circle0, members0, payouts0 := circle, members, payouts;
      ghost var history0 := history;
      r := PayEntries(recipients, amounts);
      if r.Ok? && !hostOk {
        r := Err(HostTrap);
      }
      if r.Err? {
        StorePayout(circle0, members0, payouts0, history0);
      }
    }

    // ----- auctions -----

    method AuctionBid(bidder: Address, discountBips: uint32, round: uint32, hostOk: bool) returns (r: Result<(), CircleError>)
      modifies this`bids
      ensures Committed(old(View()), CircleOps.AuctionBid(old(View()), bidder, discountBips, round, hostOk), View(), r)
    {
      if circle.payoutType != Auction {
        return Err(InvalidPayoutType);
      }
      :- Need(discountBips <= 10000, InvalidBid);
      :- Need(round == circle.currentRound, RoundNotCurrent);
      :- Need(round !in dutch, InvalidPayoutType);
      var found := BidExists(bids, bidder, round);
      :- Need(!found, AlreadyBidded);
      :- Need(circle.contributionAmount <= 0 || hostOk, HostTrap);
      bids := bids + [Bid(bidder, discountBips, round, now, circle.contributionAmount)];
      return Ok(());
    }

    /** Pays back at most a batch of losing deposits and returns how many losers are left. */
    method RefundLosingBids(round: uint32, limit: uint32, hostOk: bool) returns (r: Result<nat, CircleError>)
      modifies this`bids, this`history
      ensures match CircleOps.RefundLosingBids(old(View()), round, limit, hostOk)
              case Ok(s) => View() == s && r == Ok(RefundDrain(old(View()), round, limit).remaining)
              case Err(e) => View() == old(View()) && r == Err(e)
    {
      hide DrainUpTo;
      :- Need(limit > 0, InvalidAmount);
      :- Need(round in winners, AuctionNotResolved);
      var d := DrainLosers(bids, round, winners[round], if limit > LOSER_REFUND_BATCH_CAP then LOSER_REFUND_BATCH_CAP else limit);
      :- Need(hostOk, HostTrap);
      bids := d.kept;
      history := history.(refunds := history.refunds + AsRefunds(round, d.refunded));
      return Ok(d.remaining);
    }

    method InitDutchAuction(caller: Address, round: uint32, startBips: uint32, floorBips: uint32, decayPerLedger: uint32, expiryLedgers: uint32)
      returns (r: Result<(), CircleError>)
      modifies this`dutch
      ensures Committed(old(View()), CircleOps.InitDutchAuction(old(View()), caller, round, startBips, floorBips, decayPerLedger, expiryLedgers),
                        View(), r)
    {
      if caller != circle.organizer {
        return Err(NotOrganizer);
      }
      :- Need(circle.payoutType == Auction, InvalidPayoutType);
      :- Need(round == circle.currentRound, RoundNotCurrent);
      :- Need(floorBips <= startBips <= 10000 && decayPerLedger != 0 && expiryLedgers != 0, InvalidDutchConfig);
      var found := RoundHasBid(bids, round);
      :- Need(!found, AlreadyBidded);
      dutch := dutch[round := DutchAuction(startBips, floorBips, decayPerLedger, sequence, expiryLedgers, false)];
      return Ok(());
    }

    /** The first bid clears at the decayed price, which is returned. */
    method DutchAuctionBid(bidder: Address, round: uint32) returns (r: Result<uint32, CircleError>)
      modifies this`bids, this`dutch
      ensures match CircleOps.DutchAuctionBid(old(View()), bidder, round)
              case Ok(s) => View() == s && round in old(dutch) && r == Ok(DutchPrice(old(dutch)[round], sequence))
              case Err(e) => View() == old(View()) && r == Err(e)
    {
      if round != circle.currentRound {
        return Err(RoundNotCurrent);
      }
      :- Need(round in dutch, DutchAuctionNotConfigured);
      var terms := dutch[round];
      :- Need(!terms.resolved, AuctionAlreadyResolved);
      var elapsed := SatSub(sequence, terms.startLedger);
      :- Need(elapsed < terms.expiryLedgers, DutchAuctionExpired);
      var decayed := SatSub(terms.startBips, Min(terms.decayPerLedger * elapsed, U32_MAX));
      var clearing := if decayed > terms.floorBips then decayed else terms.floorBips;
      bids := bids + [Bid(bidder, clearing, round, now, 0)];
      dutch := dutch[round := terms.(resolved := true)];
      return Ok(clearing);
    }

    /** The best bidder and what is paid back to them. */
    method RefundOnCancel() returns (r: Result<Option<(Address, int128)>, CircleError>)
      ensures r == CancelRefund(View())
    {
      hide BestBid, ContributedBy;
      var best := FindBestBid(bids, circle.currentRound);
      if best.None? {
        return Ok(None);
      }
      var paid :- SumContributions(contributions, best.value.bidder, circle.currentRound);
      return Ok(Some((best.value.bidder, if paid == 0 then circle.contributionAmount else paid)));
    }

    /** Clears the current round's bids; reports whom it paid back, and how much. */
    method CancelAuction(caller: Address, hostOk: bool) returns (r: Result<Option<(Address, int128)>, CircleError>)
      modifies this`bids
      ensures match CircleOps.CancelAuction(old(View()), caller, hostOk)
              case Ok(s) => View() == s && r == CancelRefund(old(View()))
              case Err(e) => View() == old(View()) && r == Err(e)
    {
      hide CancelRefund;
      if caller != circle.organizer {
        return Err(NotOrganizer);
      }
      :- Need(circle.payoutType == Auction, InvalidPayoutType);
      var refund :- RefundOnCancel();
      :- Need(refund.None? || refund.value.1 <= 0 || hostOk, HostTrap);
      var kept := KeepOutside(bids, circle.currentRound);
      bids := kept;
      return Ok(refund);
    }

    // ----- votes, exits, strikes, disputes and settings -----

    method VotePayout(voter: Address, voteFor: Address, round: uint32) returns (r: Result<(), CircleError>)
      modifies this`votes
      ensures Committed(old(View()), CircleOps.VotePayout(old(View()), voter, voteFor, round), View(), r)
    {
      hide IsInactiveMember, IsActiveMember, HasVoted;
      :- Need(circle.payoutType == Vote, InvalidPayoutType);
      :- Need(round == circle.currentRound, RoundNotCurrent);
      var _ :- CheckBallot(members, voter, voteFor);
      var found := VoteExists(votes, voter, round);
      :- Need(!found, AlreadyVoted);
      votes := votes + [VoteEntry(voter, voteFor, round, now)];
      return Ok(());
    }

    method Exit(member: Address, penaltyOk: bool, hostOk: bool) returns (r: Result<(), CircleError>)
      modifies this`members, this`memberStatus
      ensures Committed(old(View()), CircleOps.Exit(old(View()), member, penaltyOk, hostOk), View(), r)
    {
      hide IsInactiveMember, WithDeparted;
      :- Need(circle.status != Completed, NotActive);
      var departed :- DepartMember(members, member, now);
      :- Need(penaltyOk, InvalidAmount);
      :- Need(circle.collateral <= 0 || hostOk, HostTrap);
      members := departed;
      memberStatus := memberStatus[member := Exited];
      return Ok(());
    }

    /** Strikes the reported member twice; nothing is written when a strike overflows. */
    method ReportLate(member: Address, round: uint32) returns (r: Result<(), CircleError>)
      modifies this`members, this`memberStatus, this`roundStrikes
      ensures Committed(old(View()), CircleOps.ReportLate(old(View()), member, round), View(), r)
    {
      hide WasLate, RecordStrike;
      :- Need(circle.status == Active, NotActive);
      var late := IsLate(contributions, member, round);
      :- Need(late, NotMember);
      var list: seq<Member>, cache: StatusCache, book: StrikeBook := members, memberStatus, roundStrikes;
      ghost var before := View();
      for i := 0 to |members|
        invariant |list| == |members|
        invariant ReportUpTo(before, member, round, i) == Ok(before.(roundStrikes := book, memberStatus := cache))
        invariant forall j :: 0 <= j < |members| ==>
                    list[j] == if j < i && members[j].address == member then Reported(members[j], circle.maxStrikes) else members[j]
      {
        var m := list[i];
        if m.address == member {
          var strikes := (m.strikes + 1) % (U32_MAX + 1) + 1;
          if strikes > U32_MAX {
            ReportStops(before, member, round, i + 1, |members|);
            return Err(InvalidAmount);
          }
          m := m.(strikes := strikes);
          book := RecordStrike(book, round, member);
          if m.strikes >= circle.maxStrikes {
            m := m.(status := Defaulted);
            cache := cache[member := Defaulted];
          }
          list := list[i := m];
        }
      }
      assert list == WithReported(members, member, circle.maxStrikes);
      hide ReportUpTo, WithReported;
      StoreSweep(Sweep(list, cache, book));
      return Ok(());
    }

    method CancelCircle(caller: Address, hostOk: bool) returns (r: Result<(), CircleError>)
      modifies this`circle
      ensures Committed(old(View()), CircleOps.CancelCircle(old(View()), caller, hostOk), View(), r)
    {
      if caller != circle.organizer {
        return Err(NotOrganizer);
      }
      :- Need(circle.status == Pending, NotActive);
      :- Need(circle.collateral <= 0 || hostOk, HostTrap);
      circle := circle.(status := Cancelled);
      return Ok(());
    }

    method RaiseDispute(member: Address) returns (r: Result<(), CircleError>)
      modifies this`circle, this`dispute
      ensures Committed(old(View()), CircleOps.RaiseDispute(old(View()), member), View(), r)
    {
      if circle.status == Disputed {
        return Err(DisputeAlreadyRaised);
      }
      :- Need(circle.status != Completed && circle.status != Cancelled, NotActive);
      :- Need(dispute.None?, DisputeAlreadyRaised);
      circle := circle.(status := Disputed);
      dispute := Some(Dispute(member, now, 0, 0, 0));
      return Ok(());
    }

    method ResolveDispute(caller: Address, resolution: uint32, hostOk: bool) returns (r: Result<(), CircleError>)
      modifies this`circle, this`dispute, this`members
      ensures Committed(old(View()), CircleOps.ResolveDispute(old(View()), caller, resolution, hostOk), View(), r)
    {
      hide Cleared;
      :- Need(caller == admin, Unauthorized);
      :- Need(dispute.Some?, NoActiveDispute);
      :- Need(0 < resolution <= 4, InvalidAmount);
      :- Need(hostOk, HostTrap);
      var c, list := circle, members;
      if resolution == 4 {
        c := c.(status := Cancelled);
        list := ClearContributions(list);
      } else {
        c := c.(status := Active);
        if resolution == 2 {
          var seat := FindMember(list, dispute.value.raisedBy);
          if seat.Some? {
            var m := list[seat.value];
            list := list[seat.value := m.(strikes := Min(m.strikes + 1, U32_MAX), status := Defaulted)];
          }
        }
      }
      StoreRoster(c, list);
      dispute := Some(dispute.value.(resolvedAt := now, resolution := resolution, resolvedBy := caller));
      return Ok(());
    }

    method SchedulePayout(caller: Address, round: uint32) returns (r: Result<(), CircleError>)
      modifies this`scheduled
      ensures Committed(old(View()), CircleOps.SchedulePayout(old(View()), caller, round), View(), r)
    {
      if caller != circle.organizer && caller != admin {
        return Err(Unauthorized);
      }
      :- Need(circle.status == Active, NotActive);
      :- Need(round == circle.currentRound, RoundNotCurrent);
      scheduled := scheduled + {round};
      return Ok(());
    }

    method SetFeeBps(caller: Address, bps: uint32) returns (r: Result<(), CircleError>)
      modifies this`feeBps
      ensures Committed(old(View()), CircleOps.SetFeeBps(old(View()), caller, bps), View(), r)
    {
      if caller != admin {
        return Err(Unauthorized);
      }
      :- Need(bps <= 10_000, InvalidAmount);
      feeBps := bps;
      return Ok(());
    }

    method SetTreasury(caller: Address, account: Address) returns (r: Result<(), CircleError>)
      modifies this`treasury
      ensures Committed(old(View()), CircleOps.SetTreasury(old(View()), caller, account), View(), r)
    {
      if caller != admin {
        return Err(Unauthorized);
      }
      treasury := Some(account);
      return Ok(());
    }

    method ConfigureFromFactory(caller: Address, account: Address, registry: Address, bps: uint32) returns (r: Result<(), CircleError>)
      modifies this`treasury, this`feeBps
      ensures Committed(old(View()), CircleOps.ConfigureFromFactory(old(View()), caller, account, registry, bps), View(), r)
    {
      if caller != factory {
        return Err(Unauthorized);
      }
      :- Need(account != ZERO_ADDRESS && registry != ZERO_ADDRESS, InvalidAmount);
      :- Need(bps <= 10_000, InvalidAmount);
      treasury, feeBps := Some(account), bps;
      return Ok(());
    }
  }

  lemma ContributorsIgnoreResolution(s: Storage, t: Storage, round: uint32)
    requires t.contributions == s.contributions && t.roundContributors == s.roundContributors
    ensures CircleOps.RoundContributors(t, round) == CircleOps.RoundContributors(s, round)
  {
  }

  lemma {:induction false} BatchStops(s: Storage, recipients: seq<Address>, amounts: seq<int128>, i: nat, n: nat)
    requires i <= n <= |recipients| == |amounts| && BatchUpTo(s, recipients, amounts, i).Err?
    ensures BatchUpTo(s, recipients, amounts, n) == BatchUpTo(s, recipients, amounts, i)
    decreases n
  {
    if i < n {
      hide PayBatchEntry;
      BatchStops(s, recipients, amounts, i, n - 1);
    }
  }

  lemma {:induction false} ReportStops(s: Storage, member: Address, round: uint32, i: nat, n: nat)
    requires i <= n <= |s.members| && ReportUpTo(s, member, round, i).Err?
    ensures ReportUpTo(s, member, round, n) == ReportUpTo(s, member, round, i)
    decreases n
  {
    if i < n {
      hide RecordStrike;
      ReportStops(s, member, round, i, n - 1);
    }
  }
}
