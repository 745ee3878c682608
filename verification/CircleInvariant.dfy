/** What holds of a circle's storage in every reachable state, and how the four kinds of change keep it. */
module CircleInvariant {
  import opened Common
  import opened Bitmap
  import opened CircleTypes
  import opened Payout
  import opened CircleOps

  // ----- seats -----

  ghost predicate HasMember(members: seq<Member>, a: Address) {
    exists i :: 0 <= i < |members| && members[i].address == a
  }

  /** Positions are list indices, addresses are distinct, and the contribution counter nobody maintains is zero. */
  ghost predicate Seated(members: seq<Member>) {
    && (forall i :: 0 <= i < |members| ==> members[i].position == i && members[i].totalContributions == 0)
    && (forall i, j :: 0 <= i < j < |members| ==> members[i].address != members[j].address)
  }

  ghost predicate SeatsSound(s: Storage) {
    Seated(s.members) && s.circle.memberCount == |s.members| <= s.circle.maxMembers
  }

  lemma {:induction false} IndexFinds(members: seq<Member>, a: Address, i: nat)
    requires i <= |members|
    ensures IndexOfMember(members, a, i).None? <==> forall j :: i <= j < |members| ==> members[j].address != a
    decreases |members| - i
  {
    if i < |members| && members[i].address != a {
      IndexFinds(members, a, i + 1);
    }
  }

  lemma IndexOfSeat(members: seq<Member>, i: nat)
    requires Seated(members) && i < |members|
    ensures IndexOfMember(members, members[i].address, 0) == Some(i)
  {
    IndexFinds(members, members[i].address, 0);
  }

  // ----- who has been paid -----

  ghost predicate IsRecipient(h: History, a: Address) {
    exists r :: 0 <= r < |h.settlements| && h.settlements[r].recipient == a
  }

  ghost predicate IsMarked(h: History, a: Address) {
    IsRecipient(h, a) || a in h.batchPaid
  }

  /** Nobody is marked twice: not by two rounds, two batches, or a round and a batch. */
  ghost predicate MarksDistinct(h: History) {
    && (forall r, q :: 0 <= r < q < |h.settlements| ==> h.settlements[r].recipient != h.settlements[q].recipient)
    && Distinct(h.batchPaid)
    && (forall r :: 0 <= r < |h.settlements| ==> h.settlements[r].recipient !in h.batchPaid)
  }

  /** The bitmap is exactly the set of seats whose member has been marked. */
  ghost predicate BitsMatch(s: Storage) {
    forall p: nat :: Bit(s.circle.bitmap, p) <==> p < |s.members| && IsMarked(s.history, s.members[p].address)
  }

  ghost predicate MarksSound(s: Storage) {
    && MarksDistinct(s.history)
    && BitsMatch(s)
    && (forall a :: IsMarked(s.history, a) ==> HasMember(s.members, a))
    && Popcount(s.circle.bitmap) == |s.history.settlements| + |s.history.batchPaid|
    && |s.history.settlements| == s.circle.currentRound
  }

  // ----- the generator -----

  ghost predicate VrfSound(s: Storage) {
    s.circle.payoutType == Random ==>
      && s.vrf.counter == s.circle.currentRound * s.circle.maxMembers
      && (s.circle.currentRound == 0 ==> s.vrf.lastNonce == None)
      && (s.circle.currentRound > 0 ==>
            s.vrf.lastNonce.Some? && s.vrf.lastNonce.value == (s.circle.currentRound - 1) * 1000 + s.circle.maxMembers - 1)
  }

  // ----- the log and its caches -----

  ghost predicate Contributed(log: seq<Contribution>, m: Address, round: uint32) {
    exists i :: 0 <= i < |log| && log[i].member == m && log[i].round == round
  }

  /** The caches say for each round what a scan of the log says. */
  ghost predicate CachesMatch(s: Storage) {
    && s.roundTotals.Keys == s.roundContributors.Keys
    && (forall r :: r in s.roundTotals ==>
          s.roundTotals[r] == ScanTotal(s.contributions, r) && s.roundContributors[r] == ScanContributors(s.contributions, r))
    && (forall r: uint32 :: r !in s.roundTotals ==> ScanTotal(s.contributions, r) == 0 && ScanContributors(s.contributions, r) == [])
    && (forall m: Address, r: uint32 :: (m, r) in s.memberContributed <==> Contributed(s.contributions, m, r))
  }

  ghost predicate LogSound(s: Storage) {
    && CachesMatch(s)
    && 0 <= s.circle.contributionAmount
    && (forall i, j :: 0 <= i < j < |s.contributions| && s.contributions[i].round == s.contributions[j].round ==>
          s.contributions[i].member != s.contributions[j].member)
    && (forall i :: 0 <= i < |s.contributions| ==>
          && s.contributions[i].amount == s.circle.contributionAmount
          && s.contributions[i].round <= s.circle.currentRound
          && HasMember(s.members, s.contributions[i].member))
    && (forall a :: a in s.memberStatus && s.memberStatus[a] == InGoodStanding ==> HasMember(s.members, a))
  }

  // ----- the books -----

  function Received(members: seq<Member>): int {
    if members == [] then 0 else Received(members[..|members| - 1]) + members[|members| - 1].totalReceived
  }

  function PaidOut(settlements: seq<Settlement>): int {
    if settlements == [] then 0 else PaidOut(settlements[..|settlements| - 1]) + settlements[|settlements| - 1].paid
  }

  function FeesTaken(settlements: seq<Settlement>): int {
    if settlements == [] then 0 else FeesTaken(settlements[..|settlements| - 1]) + settlements[|settlements| - 1].fee
  }

  ghost function PayoutFees(ledgers: FeeLedgers): map<uint32, int> {
    map r | r in ledgers :: ledgers[r].payoutFee
  }

  ghost function TotalFees(ledgers: FeeLedgers): map<uint32, int> {
    map r | r in ledgers :: ledgers[r].totalFee
  }

  /** A settled round paid nothing, or split its whole recorded pool into net and fee and paid the net
      (or more, which only saturated weights can bring about). */
  predicate SettlementSound(x: Settlement) {
    && x.pool >= 0
    && ((x.net == 0 && x.fee == 0 && x.paid == 0)
        || (x.net > 0 && x.fee >= 0 && x.net + x.fee == x.pool && x.paid >= x.net))
  }

  ghost predicate LedgersSound(ledgers: FeeLedgers) {
    forall r :: r in ledgers ==>
      ledgers[r].totalFee == ledgers[r].payoutFee + ledgers[r].latePenaltyFee && ledgers[r].payoutFee >= 0 && ledgers[r].latePenaltyFee >= 0
  }

  ghost predicate BooksSound(s: Storage) {
    && LedgersSound(s.feeLedgers)
    && s.circle.totalFees == SumMap(TotalFees(s.feeLedgers))
    && SumMap(PayoutFees(s.feeLedgers)) == FeesTaken(s.history.settlements)
    && s.circle.totalPayouts == PaidOut(s.history.settlements)
    && Received(s.members) == s.circle.totalPayouts + s.history.batchNet
    && (forall r: uint32 :: r < |s.history.settlements| ==>
          SettlementSound(s.history.settlements[r]) && s.history.settlements[r].pool == ScanTotal(s.contributions, r))
  }

  // ----- auctions -----

  ghost predicate BidsSound(s: Storage) {
    && (forall i :: 0 <= i < |s.bids| ==> s.bids[i].round <= s.circle.currentRound)
    && (forall r :: r in s.winners ==>
          r < s.circle.currentRound && r < |s.history.settlements| && s.winners[r] == s.history.settlements[r].recipient)
    && (s.circle.payoutType == Auction ==> forall r: uint32 :: r < s.circle.currentRound ==> r in s.winners)
    && (forall f :: f in s.history.refunds ==> f.round in s.winners)
  }

  ghost predicate Inv(s: Storage) {
    SeatsSound(s) && MarksSound(s) && VrfSound(s) && LogSound(s) && BooksSound(s) && BidsSound(s)
  }

  // ----- change 1: standings, bids, votes, disputes, settings and the clock -----

  /** Same people in the same seats with the same receipts; nobody returns to good standing. */
  ghost predicate SameSeats(members: seq<Member>, members': seq<Member>) {
    && |members'| == |members|
    && forall i :: 0 <= i < |members| ==>
         && members'[i].address == members[i].address && members'[i].position == members[i].position
         && (members[i].totalContributions == 0 ==> members'[i].totalContributions == 0)
         && members'[i].totalReceived == members[i].totalReceived
         && (members[i].status != InGoodStanding ==> members'[i].status != InGoodStanding)
  }

  ghost predicate NoNewStanding(cache: StatusCache, cache': StatusCache) {
    forall a :: a in cache' && cache'[a] == InGoodStanding ==> a in cache && cache[a] == InGoodStanding
  }

  /** A step that moves neither money nor rounds: at most standings, strikes, bids, votes and settings change. */
  ghost predicate Quiet(s: Storage, s': Storage) {
    && s'.circle == s.circle.(status := s'.circle.status)
    && SameSeats(s.members, s'.members)
    && NoNewStanding(s.memberStatus, s'.memberStatus)
    && s'.contributions == s.contributions && s'.memberContributed == s.memberContributed
    && s'.roundTotals == s.roundTotals && s'.roundContributors == s.roundContributors
    && s'.feeLedgers == s.feeLedgers && s'.vrf == s.vrf && s'.winners == s.winners
    && s'.history == s.history.(refunds := s'.history.refunds, strangersPaid := s'.history.strangersPaid)
  }

  lemma SameSeatsHold(members: seq<Member>, members': seq<Member>)
    requires SameSeats(members, members')
    ensures forall a :: HasMember(members', a) <==> HasMember(members, a)
    ensures Seated(members) ==> Seated(members')
  {
    forall a
      ensures HasMember(members', a) <==> HasMember(members, a)
    {
      if i :| 0 <= i < |members| && members[i].address == a {
        assert members'[i].address == a;
      }
    }
  }

  lemma {:induction false} SameReceipts(members: seq<Member>, members': seq<Member>)
    requires SameSeats(members, members')
    ensures Received(members') == Received(members)
  {
    if members != [] {
      SameReceipts(members[..|members| - 1], members'[..|members| - 1]);
    }
  }

  lemma QuietKeepsMarks(s: Storage, s': Storage)
    requires MarksSound(s) && Quiet(s, s')
    ensures MarksSound(s')
  {
    SameSeatsHold(s.members, s'.members);
    assert forall a :: IsMarked(s'.history, a) <==> IsMarked(s.history, a);
  }

  lemma QuietKeepsLog(s: Storage, s': Storage)
    requires LogSound(s) && Quiet(s, s')
    ensures LogSound(s')
  {
    SameSeatsHold(s.members, s'.members);
  }

  lemma QuietKeepsBooks(s: Storage, s': Storage)
    requires BooksSound(s) && Quiet(s, s')
    ensures BooksSound(s')
  {
    SameReceipts(s.members, s'.members);
  }

  lemma QuietKeeps(s: Storage, s': Storage)
    requires Inv(s) && Quiet(s, s') && BidsSound(s')
    ensures Inv(s')
  {
    hide MarksSound, LogSound, BooksSound, BidsSound;
    SameSeatsHold(s.members, s'.members);
    QuietKeepsMarks(s, s');
    QuietKeepsLog(s, s');
    QuietKeepsBooks(s, s');
  }

  /** When bids and refunds stay as they are too. */
  lemma QuietKeepsAll(s: Storage, s': Storage)
    requires Inv(s) && Quiet(s, s') && s'.bids == s.bids && s'.history.refunds == s.history.refunds
    ensures Inv(s')
  {
    QuietKeeps(s, s');
  }

  // ----- change 2: new members -----

  ghost predicate Grows(s: Storage, s': Storage) {
    && s'.circle == s.circle.(memberCount := |s'.members|, status := s'.circle.status, startedAt := s'.circle.startedAt)
    && (s'.circle.status == Completed ==> s.circle.status == Completed)
    && |s.members| <= |s'.members| <= s.circle.maxMembers
    && s'.members[..|s.members|] == s.members
    && Seated(s'.members)
    && (forall i :: |s.members| <= i < |s'.members| ==> s'.members[i].totalReceived == 0)
    && (forall a :: a in s'.memberStatus && s'.memberStatus[a] == InGoodStanding ==>
          HasMember(s'.members, a) || (a in s.memberStatus && s.memberStatus[a] == InGoodStanding))
    && s' == s.(circle := s'.circle, members := s'.members, memberStatus := s'.memberStatus)
  }

  lemma GrowsHasMember(members: seq<Member>, members': seq<Member>, a: Address)
    requires |members| <= |members'| && members'[..|members|] == members && HasMember(members, a)
    ensures HasMember(members', a)
  {
    var i :| 0 <= i < |members| && members[i].address == a;
    assert members'[i] == members'[..|members|][i];
  }

  lemma {:induction false} GrowsReceived(members: seq<Member>, members': seq<Member>)
    requires |members| <= |members'| && members'[..|members|] == members
    requires forall i :: |members| <= i < |members'| ==> members'[i].totalReceived == 0
    ensures Received(members') == Received(members)
    decreases |members'|
  {
    if |members'| == |members| {
      assert members' == members;
    } else {
      var n := |members'| - 1;
      assert members'[..n][..|members|] == members;
      GrowsReceived(members, members'[..n]);
    }
  }

  lemma GrowsKeepsMarks(s: Storage, s': Storage)
    requires MarksSound(s) && Grows(s, s')
    ensures MarksSound(s')
  {
    forall a | IsMarked(s.history, a)
      ensures HasMember(s'.members, a)
    {
      GrowsHasMember(s.members, s'.members, a);
    }
    forall p: nat
      ensures Bit(s'.circle.bitmap, p) <==> p < |s'.members| && IsMarked(s'.history, s'.members[p].address)
    {
      if p < |s.members| {
        assert s'.members[p] == s'.members[..|s.members|][p];
      } else if p < |s'.members| {
        NewSeatUnmarked(s, s', p);
      }
    }
  }

  lemma NewSeatUnmarked(s: Storage, s': Storage, p: nat)
    requires MarksSound(s) && Grows(s, s') && |s.members| <= p < |s'.members|
    ensures !IsMarked(s.history, s'.members[p].address)
  {
    var a := s'.members[p].address;
    forall i | 0 <= i < |s.members|
      ensures s.members[i].address != a
    {
      assert s'.members[i] == s'.members[..|s.members|][i];
    }
    assert !HasMember(s.members, a);
  }

  lemma GrowsKeepsLog(s: Storage, s': Storage)
    requires LogSound(s) && Grows(s, s')
    ensures LogSound(s')
  {
    forall a | HasMember(s.members, a)
      ensures HasMember(s'.members, a)
    {
      GrowsHasMember(s.members, s'.members, a);
    }
  }

  lemma GrowsKeeps(s: Storage, s': Storage)
    requires Inv(s) && Grows(s, s')
    ensures Inv(s')
  {
    hide MarksSound, LogSound;
    GrowsKeepsMarks(s, s');
    GrowsKeepsLog(s, s');
    GrowsReceived(s.members, s'.members);
  }

  // ----- change 3: one more contribution -----

  lemma ScanSnoc(log: seq<Contribution>, c: Contribution, r: uint32)
    ensures ScanTotal(log + [c], r) == if c.round == r then SatAddI128(ScanTotal(log, r), c.amount) else ScanTotal(log, r)
    ensures ScanContributors(log + [c], r) == ScanContributors(log, r) + if c.round == r then [c.member] else []
  {
    assert (log + [c])[..|log|] == log;
  }

  lemma ContributedSnoc(log: seq<Contribution>, c: Contribution, m: Address, r: uint32)
    ensures Contributed(log + [c], m, r) <==> Contributed(log, m, r) || (c.member == m && c.round == r)
  {
    if i :| 0 <= i < |log| && log[i].member == m && log[i].round == r {
      assert (log + [c])[i] == log[i];
    }
    if c.member == m && c.round == r {
      assert (log + [c])[|log|] == c;
    }
  }

  lemma LoggedKeepsCaches(s: Storage, c: Contribution)
    requires CachesMatch(s)
    ensures CachesMatch(Logged(s, c))
  {
    var s' := Logged(s, c);
    forall r: uint32 {
      ScanSnoc(s.contributions, c, r);
    }
    forall m: Address, r: uint32
      ensures (m, r) in s'.memberContributed <==> Contributed(s'.contributions, m, r)
    {
      ContributedSnoc(s.contributions, c, m, r);
    }
  }

  /** A contribution of the fixed amount by a member who has none yet, for the current round; the rest
      of the books may only move by a recorded late penalty. */
  ghost predicate LogsOne(s: Storage, s': Storage, c: Contribution) {
    && HasMember(s.members, c.member) && c.round == s.circle.currentRound && c.amount == s.circle.contributionAmount
    && !Contributed(s.contributions, c.member, c.round)
    && s' == Logged(s.(circle := s.circle.(totalFees := s'.circle.totalFees), feeLedgers := s'.feeLedgers,
                       memberStatus := s'.memberStatus), c)
    && (forall a :: a in s'.memberStatus && s'.memberStatus[a] == InGoodStanding ==>
          HasMember(s.members, a) || (a in s.memberStatus && s.memberStatus[a] == InGoodStanding))
    && LedgersSound(s'.feeLedgers)
    && s'.circle.totalFees == SumMap(TotalFees(s'.feeLedgers))
    && SumMap(PayoutFees(s'.feeLedgers)) == SumMap(PayoutFees(s.feeLedgers))
  }

  lemma LogsOneKeepsLog(s: Storage, s': Storage, c: Contribution)
    requires LogSound(s) && LogsOne(s, s', c)
    ensures LogSound(s')
  {
    hide CachesMatch;
    var t := s.(circle := s'.circle, feeLedgers := s'.feeLedgers, memberStatus := s'.memberStatus);
    assert CachesMatch(t) by { CachesIgnoreTheRest(s, t); }
    LoggedKeepsCaches(t, c);
    forall i, j | 0 <= i < j < |s'.contributions| && s'.contributions[i].round == s'.contributions[j].round
      ensures s'.contributions[i].member != s'.contributions[j].member
    {
      assert s'.contributions[i] == s.contributions[i];
    }
  }

  lemma CachesIgnoreTheRest(s: Storage, t: Storage)
    requires CachesMatch(s)
    requires t.contributions == s.contributions && t.memberContributed == s.memberContributed
    requires t.roundTotals == s.roundTotals && t.roundContributors == s.roundContributors
    ensures CachesMatch(t)
  {
  }

  lemma LogsOneKeepsBooks(s: Storage, s': Storage, c: Contribution)
    requires MarksSound(s) && BooksSound(s) && LogsOne(s, s', c)
    ensures BooksSound(s')
  {
    hide LedgersSound;
    forall r: uint32 | r < |s.history.settlements|
      ensures ScanTotal(s'.contributions, r) == ScanTotal(s.contributions, r)
    {
      ScanSnoc(s.contributions, c, r);
    }
  }

  lemma LogsOneKeeps(s: Storage, s': Storage, c: Contribution)
    requires Inv(s) && LogsOne(s, s', c)
    ensures Inv(s')
  {
    hide MarksSound, LogSound, BooksSound;
    LogsOneKeepsLog(s, s', c);
    LogsOneKeepsBooks(s, s', c);
    MarksIgnoreTheRest(s, s');
  }

  lemma MarksIgnoreTheRest(s: Storage, t: Storage)
    requires MarksSound(s)
    requires t.members == s.members && t.history == s.history && t.circle.bitmap == s.circle.bitmap && t.circle.currentRound == s.circle.currentRound
    ensures MarksSound(t)
  {
  }

  // ----- fee ledgers -----

  /** Recording a fee keeps each ledger's total the sum of its parts, and adds both deltas to the sums. */
  lemma RecordingFeeAddsUp(ledgers: FeeLedgers, round: uint32, payoutFee: int128, lateFee: int128)
    requires LedgersSound(ledgers) && payoutFee >= 0 && lateFee >= 0 && RecordRoundFee(ledgers, round, payoutFee, lateFee).Ok?
    ensures var ledgers' := RecordRoundFee(ledgers, round, payoutFee, lateFee).value;
            && LedgersSound(ledgers')
            && SumMap(TotalFees(ledgers')) == SumMap(TotalFees(ledgers)) + payoutFee + lateFee
            && SumMap(PayoutFees(ledgers')) == SumMap(PayoutFees(ledgers)) + payoutFee
  {
    var ledgers' := RecordRoundFee(ledgers, round, payoutFee, lateFee).value;
    var l := ledgers'[round];
    assert TotalFees(ledgers') == TotalFees(ledgers)[round := l.totalFee];
    assert PayoutFees(ledgers') == PayoutFees(ledgers)[round := l.payoutFee];
    SumMapUpdate(TotalFees(ledgers), round, l.totalFee);
    SumMapUpdate(PayoutFees(ledgers), round, l.payoutFee);
  }
}
