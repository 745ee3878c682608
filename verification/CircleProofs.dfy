/** Every entry point of the circle keeps the invariant, so it holds under any interleaving of them. */
module CircleProofs {
  import opened Common
  import opened SafeMath
  import opened Bitmap
  import opened Vrf
  import opened CircleTypes
  import opened Payout
  import opened CircleOps
  import opened CircleInvariant
  import opened CircleSettlement

  // ----- elementary changes -----

  /** At most one ballot is added, for the current round, by an active member without one. */
  ghost predicate BallotsGrow(s: Storage, votes: seq<VoteEntry>) {
    || votes == s.votes
    || exists v :: votes == s.votes + [v] && v.round == s.circle.currentRound && !HasVoted(s.votes, v.voter, v.round)
                   && IsActiveMember(s.members, v.voter)
  }

  /** At most one payee is noted as a stranger, and is one. */
  ghost predicate StrangersGrow(s: Storage, strangers: seq<Address>) {
    strangers == s.history.strangersPaid || exists a :: strangers == s.history.strangersPaid + [a] && !HasMember(s.members, a)
  }

  /** Standings, ballots and settings change at most, or a batch pays a stranger. */
  ghost predicate Stands(s: Storage, s': Storage) {
    && Quiet(s, s') && s'.bids == s.bids && s'.dutch == s.dutch
    && (s'.circle.status == Completed ==> s.circle.status == Completed)
    && s'.history == s.history.(strangersPaid := s'.history.strangersPaid) && StrangersGrow(s, s'.history.strangersPaid)
    && BallotsGrow(s, s'.votes)
  }

  predicate RoundsUpTo(bids: seq<Bid>, bound: nat) {
    forall j :: 0 <= j < |bids| ==> bids[j].round <= bound
  }

  /** The bids on one round, in order. */
  function BidsOn(bids: seq<Bid>, round: uint32): seq<Bid> {
    if bids == [] then []
    else BidsOn(bids[..|bids| - 1], round) + if bids[|bids| - 1].round == round then [bids[|bids| - 1]] else []
  }

  ghost predicate OneBidEach(bids: seq<Bid>) {
    forall i, j :: 0 <= i < j < |bids| ==> bids[i].bidder != bids[j].bidder
  }

  /** Nobody bids twice on a round, and a Dutch round has at most the one bid that cleared it. */
  ghost predicate AuctionsSound(bids: seq<Bid>, dutch: map<uint32, DutchAuction>) {
    && (forall r: uint32 :: OneBidEach(BidsOn(bids, r)))
    && (forall r: uint32 :: r in dutch ==> |BidsOn(bids, r)| <= if dutch[r].resolved then 1 else 0)
  }

  /** At most the bids change, and only those on the current round. */
  ghost predicate Rebids(s: Storage, s': Storage) {
    && s' == s.(bids := s'.bids, dutch := s'.dutch)
    && RoundsUpTo(s'.bids, s.circle.currentRound)
    && (forall r: uint32 :: r != s.circle.currentRound ==> BidsOn(s'.bids, r) == BidsOn(s.bids, r))
    && (AuctionsSound(s.bids, s.dutch) ==> AuctionsSound(s'.bids, s'.dutch))
  }

  /** One batch of losing deposits goes back. */
  ghost predicate Refunds(s: Storage, s': Storage, round: uint32, limit: uint32) {
    RefundLosingBids(s, round, limit, true) == Ok(s')
  }

  /** A batch entry for seat `k`: its bit is set, its member credited, and both noted in the history. */
  ghost predicate UnmarkedPaid(s: Storage, s': Storage, k: nat) {
    && k < |s.members| && !Bit(s.circle.bitmap, k)
    && s'.circle == s.circle.(bitmap := SetBit(s.circle.bitmap, k))
    && SameChairs(s.members, s'.members)
    && s'.history == s.history.(batchPaid := s.history.batchPaid + [s.members[k].address], batchNet := s'.history.batchNet)
    && Received(s'.members) - Received(s.members) == s'.history.batchNet - s.history.batchNet
    && s' == s.(circle := s'.circle, members := s'.members, history := s'.history, payouts := s'.payouts)
  }

  /** A settled round, with what random circles hand out by weight bounding what is paid. */
  ghost predicate SettlesRound(s: Storage, s': Storage, k: nat, x: Settlement) {
    Settles(s, s', k, x) && PaysShares(s, x) && NetsPool(s, x)
  }

  /** Every step of a run is a sequence of these. */
  ghost predicate Micro(s: Storage, s': Storage) {
    || Stands(s, s')
    || Rebids(s, s')
    || Grows(s, s')
    || (exists c :: LogsOne(s, s', c))
    || (exists k :: UnmarkedPaid(s, s', k))
    || (exists k, x :: SettlesRound(s, s', k, x))
    || (exists r, limit :: Refunds(s, s', r, limit))
  }

  /** A sound storage and the elementary changes made to it one after another. */
  ghost predicate Trace(t: seq<Storage>) {
    && |t| > 0 && Inv(t[0])
    && forall i, j {:trigger Micro(t[i], t[j])} :: 0 <= i && j == i + 1 && j < |t| ==> Micro(t[i], t[j])
  }

  lemma NothingIsQuiet(members: seq<Member>, cache: StatusCache)
    ensures SameSeats(members, members) && NoNewStanding(cache, cache)
  {
  }

  lemma RebidsKeeps(s: Storage, s': Storage)
    requires Inv(s) && Rebids(s, s')
    ensures Inv(s')
  {
    hide SeatsSound, MarksSound, VrfSound, LogSound, BooksSound, BidsOn;
    NothingIsQuiet(s.members, s.memberStatus);
    QuietKeeps(s, s');
  }

  lemma RefundsKeeps(s: Storage, s': Storage, round: uint32, limit: uint32)
    requires Inv(s) && Refunds(s, s', round, limit)
    ensures Inv(s')
  {
    RefundIsQuiet(s, round, limit, true);
    QuietKeeps(s, s');
  }

  lemma MicroKeeps(s: Storage, s': Storage)
    requires Inv(s) && Micro(s, s')
    ensures Inv(s')
  {
    hide Inv, Rebids, Grows, LogsOne, UnmarkedPaid, Settles, Refunds, Quiet;
    if Stands(s, s') {
      QuietKeepsAll(s, s');
    } else if Rebids(s, s') {
      RebidsKeeps(s, s');
    } else if Grows(s, s') {
      GrowsKeeps(s, s');
    } else if c :| LogsOne(s, s', c) {
      LogsOneKeeps(s, s', c);
    } else if k :| UnmarkedPaid(s, s', k) {
      UnmarkedPaidKeeps(s, s', k);
    } else if k, x :| SettlesRound(s, s', k, x) {
      SettlesKeeps(s, s', k, x);
    } else {
      var r, limit :| Refunds(s, s', r, limit);
      RefundsKeeps(s, s', r, limit);
    }
  }

  lemma {:induction false} TraceIsSound(t: seq<Storage>, i: nat)
    requires Trace(t) && i < |t|
    ensures Inv(t[i])
  {
    hide Inv, Micro;
    if i > 0 {
      TraceIsSound(t, i - 1);
      MicroKeeps(t[i - 1], t[i]);
    }
  }

  // ----- members -----

  lemma JoinGrows(s: Storage, member: Address, score: uint32, permitted: bool, hostOk: bool)
    requires Inv(s) && Join(s, member, score, permitted, hostOk).Ok?
    ensures Grows(s, Join(s, member, score, permitted, hostOk).value)
  {
    hide MarksSound, VrfSound, LogSound, BooksSound, BidsSound;
    var s' := Join(s, member, score, permitted, hostOk).value;
    IndexFinds(s.members, member, 0);
    assert s'.members[|s.members|].address == member;
    assert HasMember(s'.members, member);
  }

  lemma SeatingOne(members: seq<Member>, a: Address, now: uint64)
    requires Seated(members) && |members| <= U32_MAX && IndexOfMember(members, a, 0).None?
    ensures Seated(members + [NewMember(a, |members|, now)])
    ensures HasMember(members + [NewMember(a, |members|, now)], a)
  {
    IndexFinds(members, a, 0);
    assert (members + [NewMember(a, |members|, now)])[|members|].address == a;
  }

  lemma {:induction false} InvitationsSeat(c: Circle, members: seq<Member>, invitees: seq<Address>, score: Address -> uint32, now: uint64, i: nat)
    requires Seated(members) && |members| <= c.maxMembers && i <= |invitees|
    requires InviteUpTo(c, members, invitees, score, now, i).Ok?
    ensures var list := InviteUpTo(c, members, invitees, score, now, i).value;
            && Seated(list) && |members| <= |list| <= c.maxMembers && list[..|members|] == members
            && (forall j :: |members| <= j < |list| ==> list[j].totalReceived == 0)
            && (forall j :: 0 <= j < i ==> HasMember(list, invitees[j]))
  {
    if i > 0 {
      hide Seated, HasMember;
      InvitationsSeat(c, members, invitees, score, now, i - 1);
      var before := InviteUpTo(c, members, invitees, score, now, i - 1).value;
      SeatingOne(before, invitees[i - 1], now);
      var list := before + [NewMember(invitees[i - 1], |before|, now)];
      assert list[..|before|] == before && list[..|members|] == members;
      forall j | 0 <= j < i - 1
        ensures HasMember(list, invitees[j])
      {
        GrowsHasMember(before, list, invitees[j]);
      }
    }
  }

  lemma {:induction false} MarkedStatus(cache: StatusCache, addresses: seq<Address>, status: MemberStatus, a: Address)
    requires a in MarkStatus(cache, addresses, status)
    ensures a in addresses || (a in cache && MarkStatus(cache, addresses, status)[a] == cache[a])
  {
    if addresses != [] && a != addresses[|addresses| - 1] {
      MarkedStatus(cache, addresses[..|addresses| - 1], status, a);
    }
  }

  lemma InviteGrows(s: Storage, caller: Address, invitees: seq<Address>, score: Address -> uint32)
    requires Inv(s) && BatchInvite(s, caller, invitees, score).Ok?
    ensures Grows(s, BatchInvite(s, caller, invitees, score).value)
  {
    hide MarksSound, VrfSound, LogSound, BooksSound, BidsSound, InviteUpTo, MarkStatus;
    InvitationsSeat(s.circle, s.members, invitees, score, s.now, |invitees|);
    var s' := BatchInvite(s, caller, invitees, score).value;
    forall a | a in s'.memberStatus && s'.memberStatus[a] == InGoodStanding
      ensures HasMember(s'.members, a) || (a in s.memberStatus && s.memberStatus[a] == InGoodStanding)
    {
      MarkedStatus(s.memberStatus, invitees, InGoodStanding, a);
    }
  }

  // ----- contributions -----

  lemma PenaltyIsRecorded(s: Storage, amount: int128, round: uint32, onTime: bool)
    requires LedgersSound(s.feeLedgers) && s.circle.totalFees == SumMap(TotalFees(s.feeLedgers)) && amount >= 0
    requires Penalize(s, amount, round, onTime).Ok?
    ensures var p := Penalize(s, amount, round, onTime).value;
            && LedgersSound(p.feeLedgers) && p.totalFees == SumMap(TotalFees(p.feeLedgers))
            && SumMap(PayoutFees(p.feeLedgers)) == SumMap(PayoutFees(s.feeLedgers))
  {
    hide CalculatePercentage, RecordRoundFee;
    var p := Penalize(s, amount, round, onTime).value;
    if p.feeLedgers != s.feeLedgers {
      RecordingFeeAddsUp(s.feeLedgers, round, 0, CalculatePercentage(amount, s.circle.penaltyBps).value);
    } else if !onTime && s.circle.penaltyBps != 0 && CalculatePercentage(amount, s.circle.penaltyBps).value > 0 {
      RecordingFeeAddsUp(s.feeLedgers, round, 0, CalculatePercentage(amount, s.circle.penaltyBps).value);
    }
  }

  /** Passing the status check means being on the member list, cached or not. */
  lemma StatusMeansMember(s: Storage, member: Address)
    requires LogSound(s) && CheckedStatus(s, member).Ok?
    ensures HasMember(s.members, member)
    ensures var cache := CheckedStatus(s, member).value;
            forall a :: a in cache && cache[a] == InGoodStanding ==>
              HasMember(s.members, a) || (a in s.memberStatus && s.memberStatus[a] == InGoodStanding)
  {
    hide CachesMatch;
    IndexFinds(s.members, member, 0);
  }

  lemma FirstContribution(s: Storage, member: Address, round: uint32)
    requires LogSound(s)
    ensures (member, round) in s.memberContributed <==> Contributed(s.contributions, member, round)
  {
  }

  lemma ContributeLogs(s: Storage, member: Address, amount: int128, round: uint32, hostOk: bool)
    requires Inv(s) && Contribute(s, member, amount, round, hostOk).Ok?
    ensures exists onTime :: LogsOne(s, Contribute(s, member, amount, round, hostOk).value, Contribution(member, round, amount, s.now, onTime))
  {
    StatusMeansMember(s, member);
    FirstContribution(s, member, round);
    var onTime := Timeliness(s.circle, s.now).value;
    PenaltyIsRecorded(s, amount, round, onTime);
    hide Inv, Penalize, Timeliness, CheckedStatus, Logged, LedgersSound;
    var p := Penalize(s, amount, round, onTime).value;
    var c := Contribution(member, round, amount, s.now, onTime);
    var s1 := s.(memberStatus := CheckedStatus(s, member).value, circle := s.circle.(totalFees := p.totalFees), feeLedgers := p.feeLedgers);
    assert Contribute(s, member, amount, round, hostOk).value == Logged(s1, c);
    LoggedFields(s1, c);
    assert LogsOne(s, Contribute(s, member, amount, round, hostOk).value, c);
  }

  lemma LoggedFields(s: Storage, c: Contribution)
    ensures Logged(s, c).circle == s.circle && Logged(s, c).feeLedgers == s.feeLedgers && Logged(s, c).memberStatus == s.memberStatus
  {
  }

  // ----- the sweep -----

  lemma {:induction false} SweepIsQuiet(w: Sweep, maxStrikes: uint32, round: uint32, contributors: seq<Address>, i: nat)
    requires i <= |w.members|
    ensures var w' := SweepUpTo(w, maxStrikes, round, contributors, i);
            SameSeats(w.members, w'.members) && NoNewStanding(w.memberStatus, w'.memberStatus)
  {
    if i > 0 {
      hide RecordStrike;
      SweepIsQuiet(w, maxStrikes, round, contributors, i - 1);
    }
  }

  lemma SweptStands(s: Storage)
    ensures Stands(s, Swept(s, s.circle.currentRound))
  {
    hide SweepUpTo, SameSeats, NoNewStanding;
    SweepIsQuiet(Sweep(s.members, s.memberStatus, s.roundStrikes), s.circle.maxStrikes, s.circle.currentRound,
                 RoundContributors(s, s.circle.currentRound), |s.members|);
  }

  // ----- batch payouts -----

  lemma BatchMarks(s: Storage, s': Storage, k: nat)
    requires SeatsSound(s) && MarksSound(s) && UnmarkedPaid(s, s', k)
    ensures MarksSound(s')
  {
    var h, h' := s.history, s'.history;
    forall a
      ensures IsMarked(h', a) <==> IsMarked(h, a) || a == s.members[k].address
    {
      assert IsRecipient(h', a) <==> IsRecipient(h, a);
    }
    MarkingKeepsBits(s, s', k);
    assert forall r :: 0 <= r < |h.settlements| ==> IsRecipient(h, h.settlements[r].recipient);
    forall a
      ensures HasMember(s'.members, a) <==> HasMember(s.members, a)
    {
      if i :| 0 <= i < |s.members| && s.members[i].address == a {
        assert s'.members[i].address == a;
      }
    }
    assert HasMember(s.members, s.members[k].address);
  }

  lemma BatchLog(s: Storage, s': Storage, k: nat)
    requires LogSound(s) && UnmarkedPaid(s, s', k)
    ensures LogSound(s')
  {
    SameChairsHaveMembers(s.members, s'.members);
  }

  lemma BatchBooks(s: Storage, s': Storage, k: nat)
    requires BooksSound(s) && UnmarkedPaid(s, s', k)
    ensures BooksSound(s')
  {
    hide LedgersSound, SetBit;
  }

  lemma UnmarkedPaidKeeps(s: Storage, s': Storage, k: nat)
    requires Inv(s) && UnmarkedPaid(s, s', k)
    ensures Inv(s')
  {
    ChairsStaySeated(s.members, s'.members);
    BatchMarks(s, s', k);
    BatchLog(s, s', k);
    BatchBooks(s, s', k);
    hide MarksSound, LogSound, BooksSound;
  }

  lemma BatchEntryIsMicro(s: Storage, recipient: Address, amount: int128)
    requires Inv(s) && PayBatchEntry(s, recipient, amount).Ok?
    ensures Micro(s, PayBatchEntry(s, recipient, amount).value)
  {
    hide Inv, PayBatchEntry, Stands, UnmarkedPaid;
    var i := IndexOfMember(s.members, recipient, 0);
    if i.None? {
      StrangerEntryStands(s, recipient, amount);
    } else {
      MemberEntryPays(s, recipient, amount, i.value);
    }
  }

  lemma StrangerEntryStands(s: Storage, recipient: Address, amount: int128)
    requires PayBatchEntry(s, recipient, amount).Ok? && IndexOfMember(s.members, recipient, 0).None?
    ensures Stands(s, PayBatchEntry(s, recipient, amount).value)
  {
    NothingIsQuiet(s.members, s.memberStatus);
    IndexFinds(s.members, recipient, 0);
    assert !HasMember(s.members, recipient);
    hide BatchFee, BatchNet, SameSeats, NoNewStanding, HasMember;
    var s' := PayBatchEntry(s, recipient, amount).value;
    assert s'.history.strangersPaid == s.history.strangersPaid + [recipient];
  }

  lemma MemberEntryPays(s: Storage, recipient: Address, amount: int128, i: nat)
    requires Inv(s) && PayBatchEntry(s, recipient, amount).Ok? && IndexOfMember(s.members, recipient, 0) == Some(i)
    ensures UnmarkedPaid(s, PayBatchEntry(s, recipient, amount).value, i)
  {
    assert s.members[i].position == i by { SeatPosition(s, i); }
    hide Inv, BatchFee, BatchNet, Received, Bit, SetBit;
    var s' := PayBatchEntry(s, recipient, amount).value;
    ReceivedUpdate(s.members, i, s'.members[i]);
  }

  lemma SeatPosition(s: Storage, i: nat)
    requires Inv(s) && i < |s.members|
    ensures s.members[i].position == i
  {
    hide MarksSound, VrfSound, LogSound, BooksSound, BidsSound;
  }

  lemma {:induction false} BatchTrace(s: Storage, recipients: seq<Address>, amounts: seq<int128>, i: nat) returns (t: seq<Storage>)
    requires Inv(s) && i <= |recipients| == |amounts| && BatchUpTo(s, recipients, amounts, i).Ok?
    ensures Trace(t) && t[0] == s && t[|t| - 1] == BatchUpTo(s, recipients, amounts, i).value
  {
    hide Inv, PayBatchEntry, Micro;
    if i == 0 {
      t := [s];
    } else {
      t := BatchTrace(s, recipients, amounts, i - 1);
      TraceIsSound(t, |t| - 1);
      BatchEntryIsMicro(t[|t| - 1], recipients[i - 1], amounts[i - 1]);
      t := t + [BatchUpTo(s, recipients, amounts, i).value];
    }
  }

  // ----- bids -----

  lemma {:induction false} DrainKeepsRounds(bids: seq<Bid>, round: uint32, winner: Address, cap: nat, i: nat, bound: nat)
    requires i <= |bids| && RoundsUpTo(bids, bound)
    ensures RoundsUpTo(DrainUpTo(bids, round, winner, cap, i).kept, bound)
  {
    if i > 0 {
      DrainKeepsRounds(bids, round, winner, cap, i - 1, bound);
      assert bids[i - 1].round <= bound;
    }
  }

  lemma BidsOnSnoc(bids: seq<Bid>, b: Bid, r: uint32)
    ensures BidsOn(bids + [b], r) == if b.round == r then BidsOn(bids, r) + [b] else BidsOn(bids, r)
  {
    assert (bids + [b])[..|bids|] == bids;
  }

  lemma {:induction false} OutsideKeepsOthers(bids: seq<Bid>, round: uint32, bound: nat, r: uint32)
    requires RoundsUpTo(bids, bound)
    ensures RoundsUpTo(BidsOutside(bids, round), bound)
    ensures BidsOn(BidsOutside(bids, round), r) == if r == round then [] else BidsOn(bids, r)
  {
    if bids != [] {
      var n := |bids| - 1;
      OutsideKeepsOthers(bids[..n], round, bound, r);
      assert bids[n].round <= bound;
      if bids[n].round != round {
        BidsOnSnoc(BidsOutside(bids[..n], round), bids[n], r);
      } else {
        assert BidsOutside(bids, round) == BidsOutside(bids[..n], round);
      }
    }
  }

  lemma {:induction false} BidOnIsBid(bids: seq<Bid>, r: uint32, i: nat)
    requires i < |BidsOn(bids, r)|
    ensures HasBid(bids, BidsOn(bids, r)[i].bidder, r)
  {
    var n := |bids| - 1;
    if i < |BidsOn(bids[..n], r)| {
      BidOnIsBid(bids[..n], r, i);
      var k :| 0 <= k < n && bids[..n][k].bidder == BidsOn(bids, r)[i].bidder && bids[..n][k].round == r;
      assert bids[k] == bids[..n][k];
    }
  }

  lemma BidKeepsAuctions(bids: seq<Bid>, dutch: map<uint32, DutchAuction>, b: Bid)
    requires AuctionsSound(bids, dutch) && b.round !in dutch && !HasBid(bids, b.bidder, b.round)
    ensures AuctionsSound(bids + [b], dutch)
  {
    forall r: uint32
      ensures BidsOn(bids + [b], r) == if b.round == r then BidsOn(bids, r) + [b] else BidsOn(bids, r)
      ensures OneBidEach(BidsOn(bids + [b], r))
    {
      BidsOnSnoc(bids, b, r);
      assert OneBidEach(BidsOn(bids, r));
      forall i | 0 <= i < |BidsOn(bids, r)| && b.round == r
        ensures BidsOn(bids, r)[i].bidder != b.bidder
      {
        BidOnIsBid(bids, r, i);
      }
    }
  }

  lemma DutchConfigKeepsAuctions(bids: seq<Bid>, dutch: map<uint32, DutchAuction>, round: uint32, a: DutchAuction)
    requires AuctionsSound(bids, dutch) && !AnyBid(bids, round)
    ensures AuctionsSound(bids, dutch[round := a])
  {
    if BidsOn(bids, round) != [] {
      BidOnIsBid(bids, round, 0);
    }
  }

  lemma DutchBidKeepsAuctions(bids: seq<Bid>, dutch: map<uint32, DutchAuction>, b: Bid)
    requires AuctionsSound(bids, dutch) && b.round in dutch && !dutch[b.round].resolved
    ensures AuctionsSound(bids + [b], dutch[b.round := dutch[b.round].(resolved := true)])
  {
    hide BidsOn;
    forall r: uint32
      ensures BidsOn(bids + [b], r) == if b.round == r then [b] else BidsOn(bids, r)
    {
      BidsOnSnoc(bids, b, r);
      assert r in dutch && !dutch[r].resolved ==> |BidsOn(bids, r)| == 0;
    }
  }

  lemma CancelKeepsAuctions(bids: seq<Bid>, dutch: map<uint32, DutchAuction>, round: uint32)
    requires AuctionsSound(bids, dutch) && RoundsUpTo(bids, round)
    ensures AuctionsSound(BidsOutside(bids, round), dutch)
  {
    hide BidsOn, BidsOutside;
    forall r: uint32
      ensures BidsOn(BidsOutside(bids, round), r) == if r == round then [] else BidsOn(bids, r)
    {
      OutsideKeepsOthers(bids, round, round, r);
    }
  }

  lemma BidRebids(s: Storage, bidder: Address, discountBips: uint32, round: uint32, hostOk: bool)
    requires Inv(s) && AuctionBid(s, bidder, discountBips, round, hostOk).Ok?
    ensures Rebids(s, AuctionBid(s, bidder, discountBips, round, hostOk).value)
  {
    hide SeatsSound, MarksSound, VrfSound, LogSound, BooksSound, BidsOn, AuctionsSound, HasBid;
    var s' := AuctionBid(s, bidder, discountBips, round, hostOk).value;
    if AuctionsSound(s.bids, s.dutch) {
      BidKeepsAuctions(s.bids, s.dutch, s'.bids[|s.bids|]);
    }
    forall r: uint32
      ensures r != round ==> BidsOn(s'.bids, r) == BidsOn(s.bids, r)
    {
      BidsOnSnoc(s.bids, s'.bids[|s.bids|], r);
    }
  }

  lemma InitDutchRebids(s: Storage, caller: Address, round: uint32, startBips: uint32, floorBips: uint32, decay: uint32, expiry: uint32)
    requires Inv(s) && InitDutchAuction(s, caller, round, startBips, floorBips, decay, expiry).Ok?
    ensures Rebids(s, InitDutchAuction(s, caller, round, startBips, floorBips, decay, expiry).value)
  {
    hide SeatsSound, MarksSound, VrfSound, LogSound, BooksSound, BidsOn, AuctionsSound, AnyBid;
    if AuctionsSound(s.bids, s.dutch) {
      DutchConfigKeepsAuctions(s.bids, s.dutch, round, DutchAuction(startBips, floorBips, decay, s.sequence, expiry, false));
    }
  }

  lemma DutchBidRebids(s: Storage, bidder: Address, round: uint32)
    requires Inv(s) && DutchAuctionBid(s, bidder, round).Ok?
    ensures Rebids(s, DutchAuctionBid(s, bidder, round).value)
  {
    hide SeatsSound, MarksSound, VrfSound, LogSound, BooksSound, BidsOn, AuctionsSound;
    var s' := DutchAuctionBid(s, bidder, round).value;
    if AuctionsSound(s.bids, s.dutch) {
      DutchBidKeepsAuctions(s.bids, s.dutch, s'.bids[|s.bids|]);
    }
    forall r: uint32
      ensures r != round ==> BidsOn(s'.bids, r) == BidsOn(s.bids, r)
    {
      BidsOnSnoc(s.bids, s'.bids[|s.bids|], r);
    }
  }

  lemma CancelAuctionRebids(s: Storage, caller: Address, hostOk: bool)
    requires Inv(s) && CancelAuction(s, caller, hostOk).Ok?
    ensures Rebids(s, CancelAuction(s, caller, hostOk).value)
  {
    hide SeatsSound, MarksSound, VrfSound, LogSound, BooksSound, BidsOn, BidsOutside, AuctionsSound, CancelRefund;
    assert RoundsUpTo(s.bids, s.circle.currentRound);
    if AuctionsSound(s.bids, s.dutch) {
      CancelKeepsAuctions(s.bids, s.dutch, s.circle.currentRound);
    }
    OutsideKeepsOthers(s.bids, s.circle.currentRound, s.circle.currentRound, s.circle.currentRound);
    forall r: uint32
      ensures r != s.circle.currentRound ==> BidsOn(BidsOutside(s.bids, s.circle.currentRound), r) == BidsOn(s.bids, r)
    {
      OutsideKeepsOthers(s.bids, s.circle.currentRound, s.circle.currentRound, r);
    }
  }

  lemma RefundIsQuiet(s: Storage, r: uint32, limit: uint32, hostOk: bool)
    requires BidsSound(s) && RefundLosingBids(s, r, limit, hostOk).Ok?
    ensures Quiet(s, RefundLosingBids(s, r, limit, hostOk).value) && BidsSound(RefundLosingBids(s, r, limit, hostOk).value)
  {
    var s' := RefundLosingBids(s, r, limit, hostOk).value;
    hide DrainUpTo;
    assert RoundsUpTo(s.bids, s.circle.currentRound);
    DrainKeepsRounds(s.bids, r, s.winners[r], Min(limit, LOSER_REFUND_BATCH_CAP), |s.bids|, s.circle.currentRound);
    forall f | f in s'.history.refunds
      ensures f.round in s.winners
    {
      assert f in s.history.refunds || f.round == r;
    }
  }

  // ----- standings, disputes and settings -----

  lemma ExitIsQuiet(s: Storage, member: Address, penaltyOk: bool, hostOk: bool)
    requires Exit(s, member, penaltyOk, hostOk).Ok?
    ensures var s' := Exit(s, member, penaltyOk, hostOk).value; Stands(s, s')
  {
  }

  lemma {:induction false} ReportUpToIsQuiet(s: Storage, member: Address, round: uint32, i: nat)
    requires i <= |s.members| && ReportUpTo(s, member, round, i).Ok?
    ensures var s' := ReportUpTo(s, member, round, i).value;
            s' == s.(roundStrikes := s'.roundStrikes, memberStatus := s'.memberStatus) && NoNewStanding(s.memberStatus, s'.memberStatus)
  {
    if i > 0 {
      hide RecordStrike;
      ReportUpToIsQuiet(s, member, round, i - 1);
    }
  }

  lemma ReportIsQuiet(s: Storage, member: Address, round: uint32)
    requires ReportLate(s, member, round).Ok?
    ensures var s' := ReportLate(s, member, round).value; Stands(s, s')
  {
    hide ReportUpTo;
    ReportUpToIsQuiet(s, member, round, |s.members|);
  }

  lemma DefaultingIsQuiet(members: seq<Member>, a: Address)
    ensures SameSeats(members, DefaultedFirst(members, a))
  {
  }

  lemma ClearingIsQuiet(members: seq<Member>)
    ensures SameSeats(members, Cleared(members))
  {
  }

  /** A step that changes no more than status, standings, ballots and settings. */
  ghost predicate Resettles(s: Storage, s': Storage) {
    && s' == s.(circle := s.circle.(status := s'.circle.status), members := s'.members, votes := s'.votes, scheduled := s'.scheduled,
                dispute := s'.dispute, feeBps := s'.feeBps, treasury := s'.treasury, now := s'.now, sequence := s'.sequence)
    && (s'.circle.status == Completed ==> s.circle.status == Completed)
    && SameSeats(s.members, s'.members) && BallotsGrow(s, s'.votes)
  }

  lemma ResettlesStands(s: Storage, s': Storage)
    requires Resettles(s, s')
    ensures Stands(s, s')
  {
    hide SameSeats;
    NothingIsQuiet(s.members, s.memberStatus);
  }

  /** A dismissed or forced dispute only reopens the circle, a penalty also defaults one member. */
  lemma ReopeningStands(s: Storage, caller: Address, resolution: uint32, hostOk: bool)
    requires ResolveDispute(s, caller, resolution, hostOk).Ok? && resolution != 4
    ensures Stands(s, ResolveDispute(s, caller, resolution, hostOk).value)
  {
    hide DefaultedFirst, SameSeats, Stands;
    var s' := ResolveDispute(s, caller, resolution, hostOk).value;
    assert SameSeats(s.members, s'.members) by {
      if resolution == 2 {
        DefaultingIsQuiet(s.members, s.dispute.value.raisedBy);
      } else {
        NothingIsQuiet(s.members, s.memberStatus);
      }
    }
    ResettlesStands(s, s');
  }

  lemma RefundingStands(s: Storage, caller: Address, hostOk: bool)
    requires ResolveDispute(s, caller, 4, hostOk).Ok?
    ensures Stands(s, ResolveDispute(s, caller, 4, hostOk).value)
  {
    hide Cleared, SameSeats, Stands;
    ClearingIsQuiet(s.members);
    ResettlesStands(s, ResolveDispute(s, caller, 4, hostOk).value);
  }

  lemma DisputeStands(s: Storage, caller: Address, resolution: uint32, hostOk: bool)
    requires ResolveDispute(s, caller, resolution, hostOk).Ok?
    ensures Stands(s, ResolveDispute(s, caller, resolution, hostOk).value)
  {
    hide ResolveDispute, Stands;
    if resolution == 4 {
      RefundingStands(s, caller, hostOk);
    } else {
      ReopeningStands(s, caller, resolution, hostOk);
    }
  }

  lemma BallotStands(s: Storage, voter: Address, voteFor: Address, round: uint32)
    requires VotePayout(s, voter, voteFor, round).Ok?
    ensures Stands(s, VotePayout(s, voter, voteFor, round).value)
  {
    hide IsActiveMember, IsInactiveMember, HasVoted, SameSeats, Stands;
    NothingIsQuiet(s.members, s.memberStatus);
    assert VotePayout(s, voter, voteFor, round).value.votes == s.votes + [VoteEntry(voter, voteFor, round, s.now)];
    ResettlesStands(s, VotePayout(s, voter, voteFor, round).value);
  }

  lemma CancelCircleStands(s: Storage, caller: Address, hostOk: bool)
    requires CancelCircle(s, caller, hostOk).Ok?
    ensures Stands(s, CancelCircle(s, caller, hostOk).value)
  {
    hide SameSeats;
    NothingIsQuiet(s.members, s.memberStatus);
    ResettlesStands(s, CancelCircle(s, caller, hostOk).value);
  }

  lemma RaiseDisputeStands(s: Storage, member: Address)
    requires RaiseDispute(s, member).Ok?
    ensures Stands(s, RaiseDispute(s, member).value)
  {
    hide SameSeats;
    NothingIsQuiet(s.members, s.memberStatus);
    ResettlesStands(s, RaiseDispute(s, member).value);
  }

  lemma ScheduleStands(s: Storage, caller: Address, round: uint32)
    requires SchedulePayout(s, caller, round).Ok?
    ensures Stands(s, SchedulePayout(s, caller, round).value)
  {
    hide SameSeats;
    NothingIsQuiet(s.members, s.memberStatus);
    ResettlesStands(s, SchedulePayout(s, caller, round).value);
  }

  lemma SetFeeStands(s: Storage, caller: Address, feeBps: uint32)
    requires SetFeeBps(s, caller, feeBps).Ok?
    ensures Stands(s, SetFeeBps(s, caller, feeBps).value)
  {
    hide SameSeats;
    NothingIsQuiet(s.members, s.memberStatus);
    ResettlesStands(s, SetFeeBps(s, caller, feeBps).value);
  }

  lemma SetTreasuryStands(s: Storage, caller: Address, treasury: Address)
    requires SetTreasury(s, caller, treasury).Ok?
    ensures Stands(s, SetTreasury(s, caller, treasury).value)
  {
    hide SameSeats;
    NothingIsQuiet(s.members, s.memberStatus);
    ResettlesStands(s, SetTreasury(s, caller, treasury).value);
  }

  lemma ConfigureStands(s: Storage, caller: Address, treasury: Address, registry: Address, feeBps: uint32)
    requires ConfigureFromFactory(s, caller, treasury, registry, feeBps).Ok?
    ensures Stands(s, ConfigureFromFactory(s, caller, treasury, registry, feeBps).value)
  {
    hide SameSeats;
    NothingIsQuiet(s.members, s.memberStatus);
    ResettlesStands(s, ConfigureFromFactory(s, caller, treasury, registry, feeBps).value);
  }

  lemma TickStands(s: Storage, elapsed: nat, ledgers: nat)
    ensures Stands(s, Ticked(s, elapsed, ledgers))
  {
    hide SameSeats;
    NothingIsQuiet(s.members, s.memberStatus);
    ResettlesStands(s, Ticked(s, elapsed, ledgers));
  }

  // ----- every step -----

  lemma TriggerIsMicro(hash: Hash, s: Storage, round: uint32, yieldOk: bool, hostOk: bool)
    requires Inv(s) && TriggerInternal(hash, s, round, yieldOk, hostOk).Ok?
    ensures Micro(s, TriggerInternal(hash, s, round, yieldOk, hostOk).value)
  {
    hide Inv, TriggerInternal, Settles, PaysShares, NetsPool;
    var k, x := TriggerSettles(hash, s, round, yieldOk, hostOk);
    assert SettlesRound(s, TriggerInternal(hash, s, round, yieldOk, hostOk).value, k, x);
  }

  lemma RefundIsMicro(s: Storage, round: uint32, limit: uint32, hostOk: bool)
    requires RefundLosingBids(s, round, limit, hostOk).Ok?
    ensures Micro(s, RefundLosingBids(s, round, limit, hostOk).value)
  {
    hide RefundDrain;
    assert Refunds(s, RefundLosingBids(s, round, limit, hostOk).value, round, limit);
  }

  lemma ContributeIsMicro(s: Storage, member: Address, amount: int128, round: uint32, hostOk: bool)
    requires Inv(s) && Contribute(s, member, amount, round, hostOk).Ok?
    ensures Micro(s, Contribute(s, member, amount, round, hostOk).value)
  {
    hide Contribute, LogsOne, Inv;
    ContributeLogs(s, member, amount, round, hostOk);
  }

  /** Calls that only vote, close, dispute or configure, and the clock. */
  predicate IsSetting(c: Call) {
    c.CallResolve? || c.CallVote? || c.CallCancelCircle? || c.CallDispute? || c.CallSchedule? || c.CallSetFee? || c.CallSetTreasury?
    || c.CallConfigure? || c.Tick?
  }

  lemma SettingStands(hash: Hash, s: Storage, c: Call)
    requires IsSetting(c) && Outcome(hash, s, c).Ok?
    ensures Stands(s, Outcome(hash, s, c).value)
  {
    hide VotePayout, CancelCircle, RaiseDispute, ResolveDispute, SchedulePayout, SetFeeBps, SetTreasury,
         ConfigureFromFactory, Ticked, Stands;
    if c.CallResolve? {
      DisputeStands(s, c.caller, c.resolution, c.hostOk);
    } else if c.CallVote? {
      BallotStands(s, c.voter, c.voteFor, c.round);
    } else if c.CallCancelCircle? {
      CancelCircleStands(s, c.caller, c.hostOk);
    } else if c.CallDispute? {
      RaiseDisputeStands(s, c.member);
    } else if c.CallSchedule? {
      ScheduleStands(s, c.caller, c.round);
    } else if c.CallSetFee? {
      SetFeeStands(s, c.caller, c.feeBps);
    } else if c.CallSetTreasury? {
      SetTreasuryStands(s, c.caller, c.treasury);
    } else if c.CallConfigure? {
      ConfigureStands(s, c.caller, c.treasury, c.registry, c.feeBps);
    } else {
      TickStands(s, c.elapsed, c.ledgers);
    }
  }

  /** A successful call other than the deadline sweep and a batch is one elementary change. */
  lemma StepIsMicro(hash: Hash, s: Storage, c: Call)
    requires Inv(s) && Outcome(hash, s, c).Ok? && !c.CallDeadline? && !c.CallBatch?
    ensures Micro(s, Outcome(hash, s, c).value)
  {
    hide Inv, Stands, Grows, LogsOne, Rebids, UnmarkedPaid, SettlesRound, Refunds;
    if IsSetting(c) {
      hide Outcome;
      SettingStands(hash, s, c);
    } else {
      hide Join, BatchInvite, Contribute, TriggerInternal, AuctionBid, RefundLosingBids, InitDutchAuction, DutchAuctionBid,
           CancelAuction, Exit, ReportLate;
      match c
      case CallJoin(m, score, permitted, h) => JoinGrows(s, m, score, permitted, h);
      case CallInvite(caller, list, score) => InviteGrows(s, caller, list, score);
      case CallContribute(m, a, r, h) => ContributeIsMicro(s, m, a, r, h);
      case CallTrigger(caller, r, y, h) => TriggerIsMicro(hash, s, r, y, h);
      case CallExit(m, p, h) => ExitIsQuiet(s, m, p, h);
      case CallReport(m, r) => ReportIsQuiet(s, m, r);
      case CallBid(b, d, r, h) => BidRebids(s, b, d, r, h);
      case CallRefund(r, limit, h) => RefundIsMicro(s, r, limit, h);
      case CallInitDutch(caller, r, start, floor, decay, expiry) => InitDutchRebids(s, caller, r, start, floor, decay, expiry);
      case CallDutchBid(b, r) => DutchBidRebids(s, b, r);
      case CallCancelAuction(caller, h) => CancelAuctionRebids(s, caller, h);
    }
  }

  lemma SweptIsSound(s: Storage)
    requires Inv(s)
    ensures Inv(Swept(s, s.circle.currentRound))
  {
    hide Inv, Stands, Swept;
    SweptStands(s);
    MicroKeeps(s, Swept(s, s.circle.currentRound));
  }

  /** A deadline check sweeps the members and then settles the round. */
  lemma DeadlineTrace(hash: Hash, s: Storage, yieldOk: bool, hostOk: bool) returns (t: seq<Storage>)
    requires Inv(s) && CheckContributionDeadline(hash, s, yieldOk, hostOk).Ok?
    ensures Trace(t) && t[0] == s && t[|t| - 1] == CheckContributionDeadline(hash, s, yieldOk, hostOk).value
  {
    hide Inv, TriggerInternal, Swept, Stands, Grows, LogsOne, Rebids, UnmarkedPaid, SettlesRound, Refunds;
    SweptStands(s);
    SweptIsSound(s);
    var w := Swept(s, s.circle.currentRound);
    TriggerIsMicro(hash, w, s.circle.currentRound, yieldOk, hostOk);
    t := [s, w, TriggerInternal(hash, w, s.circle.currentRound, yieldOk, hostOk).value];
  }

  /** Every call is a trace of elementary changes. */
  lemma StepTrace(hash: Hash, s: Storage, c: Call) returns (t: seq<Storage>)
    requires Inv(s)
    ensures Trace(t) && t[0] == s && t[|t| - 1] == Settled(s, Outcome(hash, s, c))
  {
    hide Inv, Micro, BatchUpTo, CheckContributionDeadline;
    if Outcome(hash, s, c).Err? {
      t := [s];
    } else if c.CallDeadline? {
      t := DeadlineTrace(hash, s, c.yieldOk, c.hostOk);
    } else if c.CallBatch? {
      t := BatchTrace(s, c.recipients, c.amounts, |c.recipients|);
    } else {
      StepIsMicro(hash, s, c);
      t := [s, Outcome(hash, s, c).value];
    }
  }

  ghost predicate Reachable(hash: Hash, s: Storage) {
    exists launch, config, calls ::
      Init(launch, config).Ok? && s == Run(hash, Init(launch, config).value, calls)
  }

  lemma InitIsSound(launch: Launch, config: CircleConfig)
    requires Init(launch, config).Ok?
    ensures Inv(Init(launch, config).value)
  {
    var s := Init(launch, config).value;
    forall p: nat
      ensures !Bit(0, p)
    {
      ZeroHasNoBits(p);
    }
    assert TotalFees(s.feeLedgers) == map[] && PayoutFees(s.feeLedgers) == map[];
  }

  lemma {:induction false} ZeroHasNoBits(p: nat)
    ensures !Bit(0, p)
  {
    if p > 0 {
      ZeroHasNoBits(p - 1);
    }
  }

  /** A whole run is one trace of elementary changes. */
  lemma {:induction false} RunTrace(hash: Hash, s: Storage, calls: seq<Call>) returns (t: seq<Storage>)
    requires Inv(s)
    ensures Trace(t) && t[0] == s && t[|t| - 1] == Run(hash, s, calls)
  {
    hide Inv, Outcome, Micro;
    if calls == [] {
      t := [s];
    } else {
      var n := |calls| - 1;
      t := RunTrace(hash, s, calls[..n]);
      TraceIsSound(t, |t| - 1);
      var u := StepTrace(hash, t[|t| - 1], calls[n]);
      t := t + u[1..];
    }
  }

  lemma RunKeeps(hash: Hash, s: Storage, calls: seq<Call>)
    requires Inv(s)
    ensures Inv(Run(hash, s, calls))
  {
    hide Inv, Outcome, Micro;
    var t := RunTrace(hash, s, calls);
    TraceIsSound(t, |t| - 1);
  }

  /** Main result: the invariant holds in every reachable state. */
  lemma ReachableStatesAreSound(hash: Hash, s: Storage)
    requires Reachable(hash, s)
    ensures Inv(s)
  {
    hide Inv, Outcome, Init;
    var launch, config, calls :| Init(launch, config).Ok? && s == Run(hash, Init(launch, config).value, calls);
    InitIsSound(launch, config);
    RunKeeps(hash, Init(launch, config).value, calls);
  }
}
