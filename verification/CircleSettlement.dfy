/** Settling a round: the resolved recipient is an unpaid active member, the generator never runs dry,
    the pool is split exactly, and the books and the bitmap follow. */
module CircleSettlement {
  import opened Common
  import opened SafeMath
  import opened Bitmap
  import opened Vrf
  import opened CircleTypes
  import opened Payout
  import opened CircleOps
  import opened CircleInvariant

  // ----- rounds never outnumber members -----

  /** At most as many rounds are settled, and batches paid to members, as there are members. */
  lemma RoundsBounded(s: Storage)
    requires SeatsSound(s) && MarksSound(s)
    ensures s.circle.currentRound + |s.history.batchPaid| == Popcount(s.circle.bitmap) <= |s.members| <= s.circle.maxMembers
    ensures s.circle.bitmap <= U128_MAX
  {
    assert forall q :: q >= |s.members| ==> !Bit(s.circle.bitmap, q);
    BitsBelow(s.circle.bitmap, |s.members|);
    BitmapFitsU128(s.circle.bitmap, |s.members|);
  }

  // ----- the resolvers -----

  ghost predicate UnpaidSeat(circle: Circle, members: seq<Member>, i: int) {
    0 <= i < |members| && Unpaid(circle.bitmap, members[i])
  }

  /** A resolver's answer: the address of an active member whose bit is clear. */
  ghost predicate Eligible(circle: Circle, members: seq<Member>, a: Address) {
    exists i :: UnpaidSeat(circle, members, i) && members[i].address == a
  }

  lemma {:induction false} ActivePositionsMap(members: seq<Member>)
    requires forall i :: 0 <= i < |members| ==> members[i].position == i
    ensures forall p: uint32 :: p in ActivePositions(members) <==> p < |members| && members[p].status == InGoodStanding
    ensures forall p: uint32 :: p in ActivePositions(members) ==> ActivePositions(members)[p] == members[p].address
  {
    if members != [] {
      ActivePositionsMap(members[..|members| - 1]);
    }
  }

  lemma {:induction false} FirstFreeIsEligible(circle: Circle, members: seq<Member>, order: seq<uint32>)
    requires Seated(members)
    ensures var r := FirstFree(order, circle.bitmap, ActivePositions(members));
            r.Some? ==> Eligible(circle, members, r.value)
  {
    ActivePositionsMap(members);
    if order != [] {
      if !Bit(circle.bitmap, order[0]) && order[0] in ActivePositions(members) {
        assert UnpaidSeat(circle, members, order[0]);
      } else {
        FirstFreeIsEligible(circle, members, order[1..]);
      }
    }
  }

  lemma {:induction false} FirstFreeFromIsEligible(circle: Circle, members: seq<Member>, pos: uint32, n: uint32)
    requires Seated(members) && |members| <= n
    ensures var r := FirstFreeFrom(pos, n, circle.bitmap, ActivePositions(members));
            && (r.Some? ==> Eligible(circle, members, r.value))
            && (r.None? ==> forall i :: UnpaidSeat(circle, members, i) ==> i < pos)
    decreases n - pos
  {
    ActivePositionsMap(members);
    if pos < n {
      if !Bit(circle.bitmap, pos) && pos in ActivePositions(members) {
        assert UnpaidSeat(circle, members, pos);
      } else {
        FirstFreeFromIsEligible(circle, members, pos + 1, n);
      }
    }
  }

  lemma {:induction false} FirstUnpaidIsEligible(circle: Circle, members: seq<Member>, i: nat)
    requires i <= |members|
    ensures var r := FirstUnpaidMember(members, circle.bitmap, i);
            r.Some? ==> Eligible(circle, members, r.value)
    decreases |members| - i
  {
    if i < |members| {
      if Unpaid(circle.bitmap, members[i]) {
        assert UnpaidSeat(circle, members, i);
      } else {
        FirstUnpaidIsEligible(circle, members, i + 1);
      }
    }
  }

  /** Whatever positions the shuffle draws, also repeated ones: an unpaid active member is picked
      exactly when there is one. */
  lemma AnyOrderPicksUnpaidMember(circle: Circle, members: seq<Member>, order: seq<uint32>)
    requires Seated(members) && |members| <= circle.maxMembers
    ensures var r := PickFromOrder(circle, members, order);
            && (r.Ok? <==> exists i :: UnpaidSeat(circle, members, i))
            && (r.Ok? ==> Eligible(circle, members, r.value))
            && (r.Err? ==> r.error == PayoutAlreadyExecuted)
  {
    FirstFreeIsEligible(circle, members, order);
    FirstFreeFromIsEligible(circle, members, 0, circle.maxMembers);
    FirstUnpaidIsEligible(circle, members, 0);
  }

  lemma ShuffleIsFresh(hash: Hash, s: Storage)
    requires SeatsSound(s) && MarksSound(s) && VrfSound(s) && s.circle.payoutType == Random
    ensures var draw := ShufflePositions(hash, s.vrf, s.circle.maxMembers, NonceBase(s.circle.currentRound));
            draw.Ok? && AdvancedBy(s, draw.value.state)
  {
    var round, n := s.circle.currentRound, s.circle.maxMembers;
    RoundsBounded(s);
    Bounded(round, n);
    hide BitsMatch, MarksDistinct;
    assert NonceBase(round) == round * 1000;
    ShuffleResult(hash, s.vrf, n, NonceBase(round));
  }

  /** Main result on randomness: in every sound state the shuffle of the current round is fresh and in
      range, so the random resolver fails only when nobody is left to pay. */
  lemma RandomNeverReplays(hash: Hash, s: Storage)
    requires SeatsSound(s) && MarksSound(s) && VrfSound(s) && s.circle.payoutType == Random
    ensures ShufflePositions(hash, s.vrf, s.circle.maxMembers, NonceBase(s.circle.currentRound)).Ok?
    ensures var r := ResolveRandom(hash, s.circle, s.members, s.vrf, s.circle.currentRound);
            && (r.Ok? <==> exists i :: UnpaidSeat(s.circle, s.members, i))
            && (r.Ok? ==> Eligible(s.circle, s.members, r.value.recipient) && AdvancedBy(s, r.value.vrf))
            && (r.Err? ==> r.error == PayoutAlreadyExecuted)
  {
    ShuffleIsFresh(hash, s);
    hide MarksSound, VrfSound, ShufflePositions, PickFromOrder;
    var draw := ShufflePositions(hash, s.vrf, s.circle.maxMembers, NonceBase(s.circle.currentRound)).value;
    AnyOrderPicksUnpaidMember(s.circle, s.members, draw.positions);
  }

  lemma Bounded(a: nat, b: nat)
    requires a <= 100 && b <= 100
    ensures 0 <= a * b <= 10000
  {
    assert (100 - a) * b >= 0;
  }

  lemma FixedPicksUnpaidMember(circle: Circle, members: seq<Member>, round: uint32)
    requires Seated(members)
    ensures ResolveFixed(circle, members, round).Ok? <==> UnpaidSeat(circle, members, round % circle.maxMembers)
    ensures ResolveFixed(circle, members, round).Ok? ==>
              ResolveFixed(circle, members, round).value == members[round % circle.maxMembers].address
  {
    ActivePositionsMap(members);
  }

  lemma EligibleMemberIsEligible(circle: Circle, members: seq<Member>, a: Address)
    requires Seated(members)
    ensures EligibleMember(circle, members, a).Ok? <==> Eligible(circle, members, a)
    ensures EligibleMember(circle, members, a).Ok? ==> EligibleMember(circle, members, a).value == a
  {
    IndexFinds(members, a, 0);
    var i := IndexOfMember(members, a, 0);
    if EligibleMember(circle, members, a).Ok? {
      assert UnpaidSeat(circle, members, i.value);
    }
    if j :| UnpaidSeat(circle, members, j) && members[j].address == a {
      IndexOfSeat(members, j);
    }
  }

  /** The winning bid is on the round, no bid on the round is higher, and no later one is as high. */
  lemma {:induction false} BestBidIsHighest(bids: seq<Bid>, round: uint32)
    ensures BestBid(bids, round).None? <==> forall i :: 0 <= i < |bids| ==> bids[i].round != round
    ensures BestBid(bids, round).Some? ==>
              exists k :: 0 <= k < |bids| && bids[k] == BestBid(bids, round).value && bids[k].round == round
                && forall i :: 0 <= i < |bids| && bids[i].round == round ==>
                     bids[i].discountBips < bids[k].discountBips || (bids[i].discountBips == bids[k].discountBips && i <= k)
  {
    if bids != [] {
      var n := |bids| - 1;
      BestBidIsHighest(bids[..n], round);
      var before := BestBid(bids[..n], round);
      if before.Some? {
        var k :| 0 <= k < n && bids[..n][k] == before.value && bids[..n][k].round == round
                 && forall i :: 0 <= i < n && bids[..n][i].round == round ==>
                      bids[..n][i].discountBips < bids[..n][k].discountBips || (bids[..n][i].discountBips == bids[..n][k].discountBips && i <= k);
        assert forall i :: 0 <= i < n ==> bids[i] == bids[..n][i];
        if BestBid(bids, round) == before {
          assert bids[k] == before.value;
        } else {
          assert bids[n] == BestBid(bids, round).value;
        }
      } else {
        assert forall i :: 0 <= i < n ==> bids[i] == bids[..n][i];
        assert bids[n].round == round ==> bids[n] == BestBid(bids, round).value;
      }
    }
  }

  /** A vote needs more than half of the active members' number in ballots, and goes to a candidate
      with the most of them. */
  lemma VoteNeedsQuorumAndPlurality(circle: Circle, members: seq<Member>, votes: seq<VoteEntry>, round: uint32)
    requires Seated(members) && ResolveVote(circle, members, votes, round).Ok?
    ensures var a := ResolveVote(circle, members, votes, round).value;
            && 2 * CountVotes(votes, round) > CountActive(members)
            && Eligible(circle, members, a)
            && a in TallyVotes(votes, round)
            && forall b :: b in TallyVotes(votes, round) ==> TallyVotes(votes, round)[b] <= TallyVotes(votes, round)[a]
  {
    var leader := Leader(TallyVotes(votes, round)).value;
    EligibleMemberIsEligible(circle, members, leader);
  }

  /** The generator after a successful shuffle for the current round. */
  ghost predicate AdvancedBy(s: Storage, v: VrfState) {
    && v.lastNonce.Some? && v.lastNonce.value == s.circle.currentRound * 1000 + s.circle.maxMembers - 1
    && v.counter == s.vrf.counter + s.circle.maxMembers
  }

  /** What the resolver of each payout type needs. */
  ghost predicate CanResolve(s: Storage) {
    var round := s.circle.currentRound;
    match s.circle.payoutType
    case Random => exists i :: UnpaidSeat(s.circle, s.members, i)
    case Fixed => UnpaidSeat(s.circle, s.members, round % s.circle.maxMembers)
    case Auction => BestBid(s.bids, round).Some? && Eligible(s.circle, s.members, BestBid(s.bids, round).value.bidder)
    case Vote =>
      && 2 * CountVotes(s.votes, round) > CountActive(s.members) && Leader(TallyVotes(s.votes, round)).Some?
      && Eligible(s.circle, s.members, Leader(TallyVotes(s.votes, round)).value)
  }

  /** In a sound state the current round resolves exactly when its payout type finds somebody. */
  lemma ResolvesExactly(hash: Hash, s: Storage)
    requires SeatsSound(s) && MarksSound(s) && VrfSound(s)
    ensures Resolve(hash, s, s.circle.currentRound).Ok? <==> CanResolve(s)
  {
    hide ResolveRandom, ResolveFixed, EligibleMember, SeatsSound, MarksSound, VrfSound, Eligible, UnpaidSeat;
    var round := s.circle.currentRound;
    assert Seated(s.members) by { SeatsGiveSeated(s); }
    match s.circle.payoutType {
      case Random => RandomNeverReplays(hash, s);
      case Fixed => FixedPicksUnpaidMember(s.circle, s.members, round);
      case Auction =>
        if BestBid(s.bids, round).Some? {
          EligibleMemberIsEligible(s.circle, s.members, BestBid(s.bids, round).value.bidder);
        }
      case Vote =>
        if Leader(TallyVotes(s.votes, round)).Some? {
          EligibleMemberIsEligible(s.circle, s.members, Leader(TallyVotes(s.votes, round)).value);
        }
    }
  }

  /** Every resolver names an unpaid active member; random circles move the generator on, auctions
      record their winner. */
  ghost predicate Resolved(s: Storage, res: Resolution) {
    && CanResolve(s) && Eligible(s.circle, s.members, res.recipient)
    && (s.circle.payoutType == Random ==>
          AdvancedBy(s, res.vrf))
    && res.winners == if s.circle.payoutType == Auction then s.winners[s.circle.currentRound := res.recipient] else s.winners
  }

  lemma ResolutionIsSound(hash: Hash, s: Storage)
    requires SeatsSound(s) && MarksSound(s) && VrfSound(s) && Resolve(hash, s, s.circle.currentRound).Ok?
    ensures Resolved(s, Resolve(hash, s, s.circle.currentRound).value)
  {
    ResolvesExactly(hash, s);
    hide ResolveRandom, ResolveFixed, ResolveVote, EligibleMember, SeatsSound, MarksSound, VrfSound, CanResolve;
    var round := s.circle.currentRound;
    assert Seated(s.members) by { SeatsGiveSeated(s); }
    match s.circle.payoutType
    case Random => RandomNeverReplays(hash, s);
    case Fixed => FixedPicksUnpaidMember(s.circle, s.members, round);
    case Auction => EligibleMemberIsEligible(s.circle, s.members, BestBid(s.bids, round).value.bidder);
    case Vote => VoteNeedsQuorumAndPlurality(s.circle, s.members, s.votes, round);
  }

  lemma SeatsGiveSeated(s: Storage)
    requires SeatsSound(s)
    ensures Seated(s.members)
  {
  }

  // ----- crediting members -----

  /** The same people, seats and standings, whatever they have received. */
  ghost predicate SameChairs(members: seq<Member>, members': seq<Member>) {
    && |members'| == |members|
    && forall i :: 0 <= i < |members| ==> members'[i] == members[i].(totalReceived := members'[i].totalReceived)
  }

  lemma {:induction false} ReceivedUpdate(members: seq<Member>, k: nat, m: Member)
    requires k < |members|
    ensures Received(members[k := m]) == Received(members) - members[k].totalReceived + m.totalReceived
  {
    var n := |members| - 1;
    if k == n {
      assert members[k := m][..n] == members[..n];
    } else {
      assert members[k := m][..n] == members[..n][k := m];
      ReceivedUpdate(members[..n], k, m);
    }
  }

  lemma {:induction false} CreditSeatUpTo(members: seq<Member>, k: nat, amount: int128, i: nat)
    requires Seated(members) && k < |members| && i <= |members|
    requires CreditUpTo(members, members[k].address, amount, i).Ok?
    ensures k < i ==> FitsI128(members[k].totalReceived + amount)
    ensures CreditUpTo(members, members[k].address, amount, i).value
            == if k < i then members[k := members[k].(totalReceived := members[k].totalReceived + amount)] else members
  {
    if i > 0 {
      CreditSeatUpTo(members, k, amount, i - 1);
    }
  }

  lemma CreditSeat(members: seq<Member>, k: nat, amount: int128)
    requires Seated(members) && k < |members| && Credit(members, members[k].address, amount).Ok?
    ensures FitsI128(members[k].totalReceived + amount)
    ensures var members' := Credit(members, members[k].address, amount).value;
            && members' == members[k := members[k].(totalReceived := members[k].totalReceived + amount)]
            && SameChairs(members, members') && Received(members') == Received(members) + amount
  {
    CreditSeatUpTo(members, k, amount, |members|);
    ReceivedUpdate(members, k, members[k].(totalReceived := members[k].totalReceived + amount));
  }

  /** The distribution so far: exactly what has been handed out is what the members have received. */
  ghost predicate Accounted(members: seq<Member>, d: Dist) {
    SameChairs(members, d.members) && Received(d.members) == Received(members) + d.distributed
  }

  lemma ChairsStaySeated(members: seq<Member>, members': seq<Member>)
    requires Seated(members) && SameChairs(members, members')
    ensures Seated(members')
  {
  }

  lemma PayShareAccounts(members: seq<Member>, d: Dist, k: nat, share: int128, info: RoundInfo)
    requires Seated(members) && Accounted(members, d) && k < |members|
    requires PayShare(d, members[k].address, share, info).Ok?
    ensures Accounted(members, PayShare(d, members[k].address, share, info).value)
    ensures PayShare(d, members[k].address, share, info).value.distributed == d.distributed + share
  {
    ChairsStaySeated(members, d.members);
    CreditSeat(d.members, k, share);
  }

  lemma {:induction false} DistributionAccounts(members: seq<Member>, d: Dist, weights: Weights, net: int128, info: RoundInfo, i: nat)
    requires Seated(members) && d.members == members && d.distributed == 0 && net > 0 && i <= |members|
    requires DistributeUpTo(d, weights, net, info, i).Ok?
    ensures Accounted(members, DistributeUpTo(d, weights, net, info, i).value)
    ensures DistributeUpTo(d, weights, net, info, i).value.distributed >= 0
  {
    if i > 0 {
      hide PayShare;
      DistributionAccounts(members, d, weights, net, info, i - 1);
      var before := DistributeUpTo(d, weights, net, info, i - 1).value;
      var a := before.members[i - 1].address;
      if a in weights.of && weights.total > 0 {
        var share := Share(net, weights.of[a], weights.total, before.distributed);
        if share > 0 {
          PayShareAccounts(members, before, i - 1, share, info);
        }
      }
    }
  }

  /** What random circles hand out by weight, before any dust. */
  function Shared(s: Storage, recipient: Address, net: int128, fee: int128, info: RoundInfo): Result<Dist, CircleError>
    requires net > 0
  {
    var start := Dist(s.members, 0, s.payouts + [PayoutRecord(recipient, info.round, net, fee, info.payoutType, info.now)]);
    if info.payoutType == Random then DistributeUpTo(start, Weigh(s.contributions, info.round, info.now), net, info, |s.members|)
    else Ok(start)
  }

  /** At least the net amount is paid out, exactly it unless the weighted shares already exceed it, and
      members' receipts grow by exactly what is paid. */
  lemma DistributionPaysNet(s: Storage, k: nat, net: int128, fee: int128, info: RoundInfo)
    requires Seated(s.members) && k < |s.members| && net > 0
    requires Distribute(s, s.members[k].address, net, fee, info).Ok?
    ensures Shared(s, s.members[k].address, net, fee, info).Ok?
    ensures var shared, d := Shared(s, s.members[k].address, net, fee, info).value.distributed,
                             Distribute(s, s.members[k].address, net, fee, info).value;
            && d.distributed == Max(net, shared) && Accounted(s.members, d)
            && (info.payoutType != Random ==> d.distributed == net)
  {
    var a := s.members[k].address;
    hide PayShare, DistributeUpTo, Weigh;
    var start := Dist(s.members, 0, s.payouts + [PayoutRecord(a, info.round, net, fee, info.payoutType, info.now)]);
    var shared := Shared(s, a, net, fee, info).value;
    if info.payoutType == Random {
      DistributionAccounts(s.members, start, Weigh(s.contributions, info.round, info.now), net, info, |s.members|);
    }
    if shared.distributed < net {
      PayShareAccounts(s.members, shared, k, net - shared.distributed, info);
    }
  }

  // ----- the step that settles a round -----

  ghost predicate Settles(s: Storage, s': Storage, k: nat, x: Settlement) {
    && UnpaidSeat(s.circle, s.members, k)
    && s'.circle == s.circle.(bitmap := SetBit(s.circle.bitmap, k), currentRound := s'.circle.currentRound,
                              status := s'.circle.status, totalPayouts := s'.circle.totalPayouts, totalFees := s'.circle.totalFees)
    && s'.circle.currentRound == s.circle.currentRound + 1
    && s'.circle.status == (if s'.circle.currentRound >= s.circle.totalRounds then Completed else s.circle.status)
    && s'.circle.totalPayouts == s.circle.totalPayouts + x.paid
    && s'.circle.totalFees == s.circle.totalFees + x.fee
    && SameChairs(s.members, s'.members) && Received(s'.members) == Received(s.members) + x.paid
    && x.recipient == s.members[k].address && SettlementSound(x) && x.pool == ScanTotal(s.contributions, s.circle.currentRound)
    && s'.history == s.history.(settlements := s.history.settlements + [x])
    && LedgersSound(s'.feeLedgers)
    && SumMap(TotalFees(s'.feeLedgers)) == SumMap(TotalFees(s.feeLedgers)) + x.fee
    && SumMap(PayoutFees(s'.feeLedgers)) == SumMap(PayoutFees(s.feeLedgers)) + x.fee
    && Resolved(s, Resolution(x.recipient, s'.vrf, s'.winners))
    && s'.bids == s.bids && s'.dutch == s.dutch && s'.votes == s.votes && s'.memberStatus == s.memberStatus
    && s'.contributions == s.contributions && s'.memberContributed == s.memberContributed
    && s'.roundTotals == s.roundTotals && s'.roundContributors == s.roundContributors
  }

  lemma SameChairsHaveMembers(members: seq<Member>, members': seq<Member>)
    requires SameChairs(members, members')
    ensures forall a :: HasMember(members', a) <==> HasMember(members, a)
  {
    forall a
      ensures HasMember(members', a) <==> HasMember(members, a)
    {
      if i :| 0 <= i < |members| && members[i].address == a {
        assert members'[i].address == a;
      }
    }
  }

  /** Marking one unpaid seat, as the recipient of a round or in a batch, keeps the bitmap the set of
      marked members. */
  lemma MarkingKeepsBits(s: Storage, s': Storage, k: nat)
    requires Seated(s.members) && BitsMatch(s) && k < |s.members| && !Bit(s.circle.bitmap, k)
    requires |s'.members| == |s.members| && forall i :: 0 <= i < |s.members| ==> s'.members[i].address == s.members[i].address
    requires s'.circle.bitmap == SetBit(s.circle.bitmap, k)
    requires forall a :: IsMarked(s'.history, a) <==> IsMarked(s.history, a) || a == s.members[k].address
    ensures BitsMatch(s') && !IsMarked(s.history, s.members[k].address)
    ensures Popcount(s'.circle.bitmap) == Popcount(s.circle.bitmap) + 1
  {
    PopcountAfterSet(s.circle.bitmap, k);
    forall p: nat
      ensures Bit(s'.circle.bitmap, p) <==> p < |s'.members| && IsMarked(s'.history, s'.members[p].address)
    {
      BitAfterSet(s.circle.bitmap, k, p);
    }
  }

  lemma SettlesMarks(s: Storage, s': Storage, k: nat, x: Settlement)
    requires SeatsSound(s) && MarksSound(s) && Settles(s, s', k, x)
    ensures MarksSound(s')
  {
    var h, h' := s.history, s'.history;
    assert forall r :: 0 <= r < |h.settlements| ==> h'.settlements[r] == h.settlements[r];
    assert h'.settlements[|h.settlements|] == x;
    forall a
      ensures IsMarked(h', a) <==> IsMarked(h, a) || a == x.recipient
    {
      if r :| 0 <= r < |h.settlements| && h.settlements[r].recipient == a {
        assert h'.settlements[r].recipient == a;
      }
    }
    MarkingKeepsBits(s, s', k);
    assert forall r :: 0 <= r < |h.settlements| ==> IsRecipient(h, h.settlements[r].recipient);
    SameChairsHaveMembers(s.members, s'.members);
    assert HasMember(s.members, x.recipient);
  }

  lemma SettlesVrf(s: Storage, s': Storage, k: nat, x: Settlement)
    requires VrfSound(s) && Settles(s, s', k, x)
    ensures VrfSound(s')
  {
    if s.circle.payoutType == Random {
      var r, n := s.circle.currentRound, s.circle.maxMembers;
      assert (r + 1) * n == r * n + n;
    }
  }

  lemma SettlesLog(s: Storage, s': Storage, k: nat, x: Settlement)
    requires LogSound(s) && Settles(s, s', k, x)
    ensures LogSound(s')
  {
    SameChairsHaveMembers(s.members, s'.members);
  }

  lemma SettlesBooks(s: Storage, s': Storage, k: nat, x: Settlement)
    requires MarksSound(s) && BooksSound(s) && Settles(s, s', k, x)
    ensures BooksSound(s')
  {
    assert s'.history.settlements[..|s.history.settlements|] == s.history.settlements;
  }

  lemma SettlesBids(s: Storage, s': Storage, k: nat, x: Settlement)
    requires MarksSound(s) && BidsSound(s) && Settles(s, s', k, x)
    ensures BidsSound(s')
  {
    assert forall r :: 0 <= r < |s.history.settlements| ==> s'.history.settlements[r] == s.history.settlements[r];
  }

  lemma SettlesKeeps(s: Storage, s': Storage, k: nat, x: Settlement)
    requires Inv(s) && Settles(s, s', k, x)
    ensures Inv(s')
  {
    ChairsStaySeated(s.members, s'.members);
    SettlesMarks(s, s', k, x);
    SettlesVrf(s, s', k, x);
    SettlesLog(s, s', k, x);
    SettlesBooks(s, s', k, x);
    SettlesBids(s, s', k, x);
    hide MarksSound, VrfSound, LogSound, BooksSound, BidsSound;
  }

  // ----- a trigger is such a step -----

  lemma {:induction false} TotalsAreNonNegative(log: seq<Contribution>, r: uint32)
    requires forall i :: 0 <= i < |log| ==> log[i].amount >= 0
    ensures ScanTotal(log, r) >= 0
  {
    if log != [] {
      TotalsAreNonNegative(log[..|log| - 1], r);
    }
  }

  lemma PoolIsScanned(s: Storage, r: uint32)
    requires LogSound(s)
    ensures RoundTotal(s, r) == ScanTotal(s.contributions, r) >= 0
    ensures RoundContributors(s, r) == ScanContributors(s.contributions, r)
  {
    TotalsAreNonNegative(s.contributions, r);
  }

  function SharedNow(s: Storage, x: Settlement): Result<Dist, CircleError>
    requires x.net > 0
  {
    Shared(s, x.recipient, x.net, x.fee, RoundInfo(s.circle.currentRound, s.circle.payoutType, s.now))
  }

  /** A paying round hands out its shares and then tops them up to the net amount. */
  ghost predicate PaysShares(s: Storage, x: Settlement) {
    x.net > 0 ==> SharedNow(s, x).Ok? && x.paid == Max(x.net, SharedNow(s, x).value.distributed)
  }

  /** The net amount is the pool less the fee at the current rate. */
  predicate NetsPool(s: Storage, x: Settlement) {
    ApplyFee(x.pool, s.feeBps).Ok? && x.net == ApplyFee(x.pool, s.feeBps).value.net
  }

  /** From the state `s` before resolution to the settled one; `t` is `s` with the resolution stored. */
  lemma SettlePoolSettles(s: Storage, res: Resolution, yieldOk: bool, hostOk: bool) returns (k: nat, x: Settlement)
    requires SeatsSound(s) && LogSound(s) && BooksSound(s) && Resolved(s, res)
    requires SettlePool(s.(vrf := res.vrf, winners := res.winners), res.recipient, yieldOk, hostOk).Ok?
    ensures Settles(s, SettlePool(s.(vrf := res.vrf, winners := res.winners), res.recipient, yieldOk, hostOk).value, k, x)
    ensures x.recipient == res.recipient
    ensures PaysShares(s, x) && NetsPool(s, x)
  {
    hide CanResolve;
    var t := s.(vrf := res.vrf, winners := res.winners);
    var s' := SettlePool(t, res.recipient, yieldOk, hostOk).value;
    var round := s.circle.currentRound;
    k :| UnpaidSeat(s.circle, s.members, k) && s.members[k].address == res.recipient;
    IndexOfSeat(s.members, k);
    PoolIsScanned(s, round);
    var pool := ScanTotal(s.contributions, round);
    FeeSplitsAmount(pool, s.feeBps);
    var split := ApplyFee(pool, s.feeBps).value;
    if split.net <= 0 {
      x := Settlement(res.recipient, pool, 0, 0, 0);
      EmptySettles(s, res, k, pool);
    } else {
      x := PaidSettles(s, res, k, pool, split.net, split.fee, hostOk);
    }
  }

  lemma EmptySettles(s: Storage, res: Resolution, k: nat, pool: int128)
    requires SeatsSound(s) && BooksSound(s) && Resolved(s, res)
    requires UnpaidSeat(s.circle, s.members, k) && s.members[k].address == res.recipient
    requires pool == ScanTotal(s.contributions, s.circle.currentRound) >= 0
    requires SettleEmpty(s.(vrf := res.vrf, winners := res.winners), res.recipient, pool).Ok?
    ensures Settles(s, SettleEmpty(s.(vrf := res.vrf, winners := res.winners), res.recipient, pool).value, k,
                    Settlement(res.recipient, pool, 0, 0, 0))
  {
    IndexOfSeat(s.members, k);
  }

  lemma PaidSettles(s: Storage, res: Resolution, k: nat, pool: int128, net: int128, fee: int128, hostOk: bool) returns (x: Settlement)
    requires SeatsSound(s) && BooksSound(s) && Resolved(s, res)
    requires UnpaidSeat(s.circle, s.members, k) && s.members[k].address == res.recipient
    requires pool == ScanTotal(s.contributions, s.circle.currentRound) && net > 0 && fee >= 0 && net + fee == pool
    requires SettlePaid(s.(vrf := res.vrf, winners := res.winners), res.recipient, pool, net, fee, hostOk).Ok?
    ensures Settles(s, SettlePaid(s.(vrf := res.vrf, winners := res.winners), res.recipient, pool, net, fee, hostOk).value, k, x)
    ensures x == Settlement(res.recipient, pool, net, fee, x.paid) && PaysShares(s, x)
  {
    hide Distribute, RecordRoundFee, Shared;
    var t := s.(vrf := res.vrf, winners := res.winners);
    var info := RoundInfo(s.circle.currentRound, s.circle.payoutType, s.now);
    IndexOfSeat(s.members, k);
    DistributionPaysNet(t, k, net, fee, info);
    assert Shared(t, res.recipient, net, fee, info) == Shared(s, res.recipient, net, fee, info) by {
      SharedIgnoresResolution(s, res, net, fee, info);
    }
    var d := Distribute(t, res.recipient, net, fee, info).value;
    if fee > 0 {
      RecordingFeeAddsUp(s.feeLedgers, s.circle.currentRound, fee, 0);
    }
    x := Settlement(res.recipient, pool, net, fee, d.distributed);
  }

  lemma SharedIgnoresResolution(s: Storage, res: Resolution, net: int128, fee: int128, info: RoundInfo)
    requires net > 0
    ensures Shared(s.(vrf := res.vrf, winners := res.winners), res.recipient, net, fee, info) == Shared(s, res.recipient, net, fee, info)
  {
  }

  lemma TriggerSettles(hash: Hash, s: Storage, round: uint32, yieldOk: bool, hostOk: bool) returns (k: nat, x: Settlement)
    requires Inv(s) && TriggerInternal(hash, s, round, yieldOk, hostOk).Ok?
    ensures round == s.circle.currentRound && Settles(s, TriggerInternal(hash, s, round, yieldOk, hostOk).value, k, x)
    ensures PaysShares(s, x) && NetsPool(s, x)
  {
    hide SeatsSound, MarksSound, VrfSound, LogSound, BooksSound, BidsSound, Resolve, SettlePool, PaysShares, NetsPool, CanResolve;
    ResolutionIsSound(hash, s);
    var res := Resolve(hash, s, round).value;
    k, x := SettlePoolSettles(s, res, yieldOk, hostOk);
  }
}
