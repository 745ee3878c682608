/** What a circle promises over whole runs, under any interleaving of its entry points. */
module CircleRuns {
  import opened Common
  import opened Bitmap
  import opened Vrf
  import opened CircleTypes
  import opened Payout
  import opened CircleOps
  import opened CircleInvariant
  import opened CircleSettlement
  import opened CircleProofs
  import opened CircleRefunds

  // ----- going on -----

  lemma RunThen(hash: Hash, s: Storage, calls: seq<Call>, c: Call)
    ensures Run(hash, s, calls + [c]) == Settled(Run(hash, s, calls), Outcome(hash, Run(hash, s, calls), c))
  {
    assert (calls + [c])[..|calls|] == calls;
  }

  lemma InitIsReachable(hash: Hash, launch: Launch, config: CircleConfig)
    requires Init(launch, config).Ok?
    ensures Reachable(hash, Init(launch, config).value)
  {
    assert Run(hash, Init(launch, config).value, []) == Init(launch, config).value;
  }

  lemma StepIsReachable(hash: Hash, s: Storage, c: Call)
    requires Reachable(hash, s)
    ensures Reachable(hash, Settled(s, Outcome(hash, s, c)))
  {
    hide Init, Outcome;
    var launch, config, calls :| Init(launch, config).Ok? && s == Run(hash, Init(launch, config).value, calls);
    RunThen(hash, Init(launch, config).value, calls, c);
    assert Settled(s, Outcome(hash, s, c)) == Run(hash, Init(launch, config).value, calls + [c]);
  }

  lemma {:induction false} RunIsReachable(hash: Hash, s: Storage, calls: seq<Call>)
    requires Reachable(hash, s)
    ensures Reachable(hash, Run(hash, s, calls))
  {
    if calls != [] {
      hide Outcome, Reachable;
      RunIsReachable(hash, s, calls[..|calls| - 1]);
      StepIsReachable(hash, Run(hash, s, calls[..|calls| - 1]), calls[|calls| - 1]);
    }
  }

  lemma OutcomeIsReachable(hash: Hash, s: Storage, c: Call)
    requires Reachable(hash, s) && Outcome(hash, s, c).Ok?
    ensures Reachable(hash, Outcome(hash, s, c).value)
  {
    hide Outcome, Reachable;
    StepIsReachable(hash, s, c);
  }

  // ----- one state -----

  /** Nobody is the resolved recipient of two rounds, nor of a round and of a batch that paid them as a
      member; rounds settled and members paid by batches are exactly the bits set, so both are bounded. */
  lemma NobodyIsPaidTwice(hash: Hash, s: Storage)
    requires Reachable(hash, s)
    ensures Seated(s.members) && MarksDistinct(s.history)
    ensures s.circle.memberCount == |s.members| && |s.history.settlements| == s.circle.currentRound
    ensures s.circle.currentRound + |s.history.batchPaid| == Popcount(s.circle.bitmap) <= |s.members| <= s.circle.maxMembers <= 100
    ensures forall p: nat :: Bit(s.circle.bitmap, p) <==> p < |s.members| && IsMarked(s.history, s.members[p].address)
    ensures s.circle.bitmap <= U128_MAX
  {
    ReachableStatesAreSound(hash, s);
    RoundsBounded(s);
  }

  /** A random circle's round never fails on the generator: its seeds are fresh and in range in every
      reachable state, and somebody is found whenever an active unpaid member exists. */
  lemma RandomRoundsResolve(hash: Hash, s: Storage)
    requires Reachable(hash, s) && s.circle.payoutType == Random
    ensures s.vrf.counter == s.circle.currentRound * s.circle.maxMembers
    ensures match s.vrf.lastNonce case None => s.circle.currentRound == 0 case Some(n) => n < s.circle.currentRound * 1000
    ensures ShufflePositions(hash, s.vrf, s.circle.maxMembers, NonceBase(s.circle.currentRound)).Ok?
    ensures ResolveRandom(hash, s.circle, s.members, s.vrf, s.circle.currentRound).Ok? <==> exists i :: UnpaidSeat(s.circle, s.members, i)
  {
    ReachableStatesAreSound(hash, s);
    RandomNeverReplays(hash, s);
    hide MarksSound, LogSound, BooksSound, BidsSound, ResolveRandom, ShufflePositions, UnpaidSeat;
  }

  /** The caches are a scan of the log, and the log has at most one entry per member and round. */
  lemma CachesAreScans(hash: Hash, s: Storage, round: uint32, member: Address)
    requires Reachable(hash, s)
    ensures RoundTotal(s, round) == ScanTotal(s.contributions, round)
    ensures RoundContributors(s, round) == ScanContributors(s.contributions, round)
    ensures (member, round) in s.memberContributed <==> member in ScanContributors(s.contributions, round)
    ensures Distinct(ScanContributors(s.contributions, round))
    ensures ScanTotal(s.contributions, round) == Min(I128_MAX, |ScanContributors(s.contributions, round)| * s.circle.contributionAmount)
  {
    ReachableStatesAreSound(hash, s);
    hide SeatsSound, MarksSound, VrfSound, BooksSound, BidsSound;
    PoolIsScanned(s, round);
    ScanIsContributed(s.contributions, round, member);
    ScanDistinct(s.contributions, round);
    ScanTotalIsCount(s.contributions, round, s.circle.contributionAmount);
  }

  lemma {:induction false} ScanIsContributed(log: seq<Contribution>, round: uint32, member: Address)
    ensures member in ScanContributors(log, round) <==> Contributed(log, member, round)
  {
    if log != [] {
      var n := |log| - 1;
      ScanIsContributed(log[..n], round, member);
      ContributedSnoc(log[..n], log[n], member, round);
      assert log[..n] + [log[n]] == log;
    }
  }

  lemma {:induction false} ScanDistinct(log: seq<Contribution>, round: uint32)
    requires forall i, j :: 0 <= i < j < |log| && log[i].round == log[j].round ==> log[i].member != log[j].member
    ensures Distinct(ScanContributors(log, round))
  {
    if log != [] {
      var n := |log| - 1;
      ScanDistinct(log[..n], round);
      if log[n].round == round {
        ScanIsContributed(log[..n], round, log[n].member);
      }
    }
  }

  lemma {:induction false} ScanTotalIsCount(log: seq<Contribution>, round: uint32, amount: int128)
    requires amount >= 0 && forall i :: 0 <= i < |log| ==> log[i].amount == amount
    ensures ScanTotal(log, round) == Min(I128_MAX, |ScanContributors(log, round)| * amount)
  {
    if log != [] {
      var n := |log| - 1;
      ScanTotalIsCount(log[..n], round, amount);
      SaturatesOnce(|ScanContributors(log[..n], round)|, amount);
      hide SatAddI128;
    }
  }

  lemma SaturatesOnce(count: nat, amount: int128)
    requires amount >= 0
    ensures 0 <= Min(I128_MAX, count * amount)
    ensures SatAddI128(Min(I128_MAX, count * amount), amount) == Min(I128_MAX, (count + 1) * amount)
  {
    assert count * amount >= 0;
    assert (count + 1) * amount == count * amount + amount;
  }

  // ----- the books -----

  /** The recorded pools of the rounds that paid. */
  function PaidPools(settlements: seq<Settlement>): int {
    if settlements == [] then 0
    else
      var x := settlements[|settlements| - 1];
      PaidPools(settlements[..|settlements| - 1]) + if x.net > 0 then x.pool else 0
  }

  /** What saturated weights made rounds pay beyond their net. */
  function Overpaid(settlements: seq<Settlement>): int {
    if settlements == [] then 0
    else
      var x := settlements[|settlements| - 1];
      Overpaid(settlements[..|settlements| - 1]) + x.paid - x.net
  }

  lemma {:induction false} SettlementsAddUp(settlements: seq<Settlement>)
    requires forall r :: 0 <= r < |settlements| ==> SettlementSound(settlements[r])
    ensures PaidOut(settlements) + FeesTaken(settlements) == PaidPools(settlements) + Overpaid(settlements)
    ensures Overpaid(settlements) >= 0
    ensures Overpaid(settlements) == 0 <==> forall r :: 0 <= r < |settlements| ==> settlements[r].paid == settlements[r].net
  {
    if settlements != [] {
      var n := |settlements| - 1;
      SettlementsAddUp(settlements[..n]);
      assert forall r :: 0 <= r < n ==> settlements[..n][r] == settlements[r];
      assert SettlementSound(settlements[n]);
    }
  }

  /** Payouts and payout fees together are the pools of the rounds that paid (plus what saturated
      weights overpaid), fees are the sum of the ledgers, and members' receipts are the payouts plus the
      net batch amounts. */
  lemma BooksBalance(hash: Hash, s: Storage)
    requires Reachable(hash, s)
    ensures s.circle.totalPayouts + SumMap(PayoutFees(s.feeLedgers)) == PaidPools(s.history.settlements) + Overpaid(s.history.settlements)
    ensures Overpaid(s.history.settlements) >= 0
    ensures s.circle.totalFees == SumMap(TotalFees(s.feeLedgers))
    ensures Received(s.members) == s.circle.totalPayouts + s.history.batchNet
    ensures forall r: uint32 :: r < |s.history.settlements| ==>
              SettlementSound(s.history.settlements[r]) && s.history.settlements[r].pool == ScanTotal(s.contributions, r)
    ensures LedgersSound(s.feeLedgers)
  {
    ReachableStatesAreSound(hash, s);
    hide SeatsSound, MarksSound, VrfSound, LogSound, BidsSound, LedgersSound, SettlementSound;
    forall r | 0 <= r < |s.history.settlements|
      ensures SettlementSound(s.history.settlements[r])
    {
      RoundFitsU32(s, r);
    }
    SettlementsAddUp(s.history.settlements);
  }

  lemma RoundFitsU32(s: Storage, r: nat)
    requires Inv(s) && r < |s.history.settlements|
    ensures r <= U32_MAX && SettlementSound(s.history.settlements[r])
  {
  }

  // ----- from one state to a later one -----

  ghost predicate StandingsOnlyFall(members: seq<Member>, members': seq<Member>) {
    && |members| <= |members'|
    && forall i :: 0 <= i < |members| && members[i].status != InGoodStanding ==> members'[i].status != InGoodStanding
  }

  lemma InactiveStays(members: seq<Member>, members': seq<Member>, a: Address)
    requires StandingsOnlyFall(members, members') && IsInactiveMember(members, a)
    requires forall i :: 0 <= i < |members| ==> members'[i].address == members[i].address
    ensures IsInactiveMember(members', a)
  {
    var i :| 0 <= i < |members| && members[i].address == a && members[i].status != InGoodStanding;
    assert members'[i].address == a;
  }

  /** What no step takes back: settled rounds, batch payments, seats, winners, closed rounds'
      contributions, deposits returned and what resolved rounds owe their losers; members who left good standing stay out,
      and no round settled later goes to them. */
  ghost predicate Extends(s: Storage, s': Storage) {
    && s.history.settlements <= s'.history.settlements
    && s.history.batchPaid <= s'.history.batchPaid && s.history.strangersPaid <= s'.history.strangersPaid
    && s.history.refunds <= s'.history.refunds
    && s'.circle.contributionAmount == s.circle.contributionAmount && s'.circle.maxMembers == s.circle.maxMembers
    && s'.circle.payoutType == s.circle.payoutType && s'.circle.totalRounds == s.circle.totalRounds
    && s.circle.currentRound <= s'.circle.currentRound
    && |s.members| <= |s'.members| && (forall i :: 0 <= i < |s.members| ==> s'.members[i].address == s.members[i].address)
    && StandingsOnlyFall(s.members, s'.members)
    && (forall r :: |s.history.settlements| <= r < |s'.history.settlements| ==>
          !IsInactiveMember(s.members, s'.history.settlements[r].recipient))
    && (forall r: uint32 :: r < s.circle.currentRound ==> ScanContributors(s'.contributions, r) == ScanContributors(s.contributions, r))
    && (forall r :: r in s.winners ==> r in s'.winners && s'.winners[r] == s.winners[r] && Owed(s', r) == Owed(s, r))
  }

  lemma ExtendsTransitively(s: Storage, t: Storage, u: Storage)
    requires Extends(s, t) && Extends(t, u)
    ensures Extends(s, u)
  {
    hide Owed, ScanContributors, IsInactiveMember;
    forall r | |s.history.settlements| <= r < |u.history.settlements|
      ensures !IsInactiveMember(s.members, u.history.settlements[r].recipient)
    {
      if r >= |t.history.settlements| && IsInactiveMember(s.members, u.history.settlements[r].recipient) {
        InactiveStays(s.members, t.members, u.history.settlements[r].recipient);
      }
    }
  }

  lemma StandsExtends(s: Storage, s': Storage)
    requires Stands(s, s')
    ensures Extends(s, s')
  {
    hide ScanContributors, RefundsOf, LosersOn;
  }

  lemma RebidsExtends(s: Storage, s': Storage)
    requires Inv(s) && Rebids(s, s')
    ensures Extends(s, s')
  {
    hide SeatsSound, MarksSound, VrfSound, LogSound, BooksSound, ScanContributors, RefundsOf, BidsOn;
  }

  lemma GrowsExtends(s: Storage, s': Storage)
    requires Grows(s, s')
    ensures Extends(s, s')
  {
    hide ScanContributors, RefundsOf, LosersOn, HasMember, Seated;
    forall i | 0 <= i < |s.members|
      ensures s'.members[i].address == s.members[i].address
    {
      assert s'.members[..|s.members|][i] == s'.members[i];
    }
  }

  lemma LogsOneExtends(s: Storage, s': Storage, c: Contribution)
    requires LogsOne(s, s', c)
    ensures Extends(s, s')
  {
    hide RefundsOf, LosersOn, HasMember, LedgersSound;
    forall r: uint32 | r < s.circle.currentRound
      ensures ScanContributors(s'.contributions, r) == ScanContributors(s.contributions, r)
    {
      ScanSnoc(s.contributions, c, r);
    }
  }

  lemma UnmarkedPaidExtends(s: Storage, s': Storage, k: nat)
    requires UnmarkedPaid(s, s', k)
    ensures Extends(s, s')
  {
    hide ScanContributors, RefundsOf, LosersOn, SetBit, Received, Bit;
  }

  lemma RecipientIsActive(s: Storage, k: nat)
    requires SeatsSound(s) && UnpaidSeat(s.circle, s.members, k)
    ensures !IsInactiveMember(s.members, s.members[k].address)
  {
  }

  lemma SettlesExtends(s: Storage, s': Storage, k: nat, x: Settlement)
    requires Inv(s) && Settles(s, s', k, x)
    ensures Extends(s, s')
  {
    RecipientIsActive(s, k);
    hide SeatsSound, MarksSound, VrfSound, LogSound, BooksSound, ScanContributors, ScanTotal, RefundsOf, LosersOn, SetBit, Received,
         SettlementSound, LedgersSound, UnpaidSeat, Eligible, AdvancedBy, IsInactiveMember;
  }

  lemma RefundsExtends(s: Storage, s': Storage, round: uint32, limit: uint32)
    requires Refunds(s, s', round, limit)
    ensures Extends(s, s')
  {
    hide ScanContributors, Owed, DrainUpTo, AsRefunds;
    forall r | r in s.winners
      ensures r in s'.winners && s'.winners[r] == s.winners[r] && Owed(s', r) == Owed(s, r)
    {
      RefundKeepsOwed(s, round, limit, r);
    }
  }

  lemma MicroExtends(s: Storage, s': Storage)
    requires Inv(s) && Micro(s, s')
    ensures Extends(s, s')
  {
    hide Inv, Stands, Rebids, Grows, LogsOne, UnmarkedPaid, Settles, Refunds, Extends, PaysShares;
    if Stands(s, s') {
      StandsExtends(s, s');
    } else if Rebids(s, s') {
      RebidsExtends(s, s');
    } else if Grows(s, s') {
      GrowsExtends(s, s');
    } else if c :| LogsOne(s, s', c) {
      LogsOneExtends(s, s', c);
    } else if k :| UnmarkedPaid(s, s', k) {
      UnmarkedPaidExtends(s, s', k);
    } else if k, x :| SettlesRound(s, s', k, x) {
      SettlesExtends(s, s', k, x);
    } else {
      var r, limit :| Refunds(s, s', r, limit);
      RefundsExtends(s, s', r, limit);
    }
  }

  lemma {:induction false} TraceExtends(t: seq<Storage>, i: nat)
    requires Trace(t) && i < |t|
    ensures Extends(t[0], t[i])
  {
    if i > 0 {
      hide Inv, Micro, Extends;
      TraceExtends(t, i - 1);
      TraceIsSound(t, i - 1);
      MicroExtends(t[i - 1], t[i]);
      ExtendsTransitively(t[0], t[i - 1], t[i]);
    } else {
      hide Inv, Micro, Owed, ScanContributors;
    }
  }

  /** Whatever happens after a reachable state, what it has settled stays settled. */
  lemma RunsExtend(hash: Hash, s: Storage, calls: seq<Call>)
    requires Reachable(hash, s)
    ensures Extends(s, Run(hash, s, calls)) && Inv(s) && Inv(Run(hash, s, calls))
  {
    hide Inv, Outcome, Micro, Extends;
    ReachableStatesAreSound(hash, s);
    var t := RunTrace(hash, s, calls);
    TraceIsSound(t, |t| - 1);
    TraceExtends(t, |t| - 1);
  }

  lemma {:induction false} ReturnedOnlyGrows(refunds: seq<Refund>, refunds': seq<Refund>, round: uint32)
    requires refunds <= refunds'
    ensures RefundsOf(refunds, round) <= RefundsOf(refunds', round)
    decreases |refunds'|
  {
    if |refunds| < |refunds'| {
      ReturnedOnlyGrows(refunds, refunds'[..|refunds'| - 1], round);
    } else {
      assert refunds == refunds';
    }
  }

  /** Main result on refunds: from the moment a round has a recorded winner, over any further run, the
      deposits returned followed by the losing deposits still held are one fixed list of which the
      returned part only grows, so each losing deposit goes back once, in order, and the winner's never
      does. */
  lemma EachLosingDepositReturnsOnce(hash: Hash, s: Storage, calls: seq<Call>, round: uint32)
    requires Reachable(hash, s) && round in s.winners
    ensures var s' := Run(hash, s, calls);
            && round in s'.winners && s'.winners[round] == s.winners[round]
            && RefundsOf(s'.history.refunds, round) + LosersOn(s'.bids, round, s.winners[round])
               == RefundsOf(s.history.refunds, round) + LosersOn(s.bids, round, s.winners[round])
            && RefundsOf(s.history.refunds, round) <= RefundsOf(s'.history.refunds, round)
  {
    hide Inv, ScanContributors, RefundsOf, LosersOn;
    RunsExtend(hash, s, calls);
    ReturnedOnlyGrows(s.history.refunds, Run(hash, s, calls).history.refunds, round);
  }

  lemma {:induction false} NoRefundsOf(refunds: seq<Refund>, round: uint32)
    requires forall f :: f in refunds ==> f.round != round
    ensures RefundsOf(refunds, round) == []
  {
    if refunds != [] {
      assert refunds[|refunds| - 1] in refunds;
      assert forall f :: f in refunds[..|refunds| - 1] ==> f in refunds;
      NoRefundsOf(refunds[..|refunds| - 1], round);
    }
  }

  /** Before a round has a winner nothing is refunded for it; so at resolution it owes exactly the losers. */
  lemma NothingIsRefundedBeforeResolution(hash: Hash, s: Storage, round: uint32)
    requires Reachable(hash, s) && round !in s.winners
    ensures RefundsOf(s.history.refunds, round) == []
    ensures s.circle.payoutType == Auction ==> round >= s.circle.currentRound
  {
    ReachableStatesAreSound(hash, s);
    hide SeatsSound, MarksSound, VrfSound, LogSound, BooksSound;
    NoRefundsOf(s.history.refunds, round);
  }

  /** A settled round is final: over any further run its recipient, pool and split stay as recorded, no
      contribution is added to it, and the pool stays what a scan of the log gives. */
  lemma SettledRoundsAreFinal(hash: Hash, s: Storage, calls: seq<Call>, round: uint32)
    requires Reachable(hash, s) && round < s.circle.currentRound
    ensures var s' := Run(hash, s, calls);
            && round < |s.history.settlements| <= |s'.history.settlements|
            && s'.history.settlements[round] == s.history.settlements[round]
            && ScanContributors(s'.contributions, round) == ScanContributors(s.contributions, round)
            && s'.history.settlements[round].pool == ScanTotal(s'.contributions, round)
  {
    RunsExtend(hash, s, calls);
    hide SeatsSound, VrfSound, LogSound, BidsSound, ScanContributors, Owed, SettlementSound;
  }

  /** Leaving good standing is final: a member who exited or defaulted is the resolved recipient of no
      round settled afterwards, whatever is called. */
  lemma InactiveMembersAreNeverResolvedAgain(hash: Hash, s: Storage, calls: seq<Call>, a: Address, round: nat)
    requires Reachable(hash, s) && IsInactiveMember(s.members, a)
    ensures var s' := Run(hash, s, calls);
            && IsInactiveMember(s'.members, a)
            && (|s.history.settlements| <= round < |s'.history.settlements| ==> s'.history.settlements[round].recipient != a)
  {
    hide Inv, ScanContributors, Owed, IsInactiveMember;
    RunsExtend(hash, s, calls);
    InactiveStays(s.members, Run(hash, s, calls).members, a);
  }

  // ----- rounds and batches -----

  lemma MarkedSeat(s: Storage, a: Address) returns (i: nat)
    requires SeatsSound(s) && MarksSound(s) && IsMarked(s.history, a)
    ensures IndexOfMember(s.members, a, 0) == Some(i) && i < |s.members| && s.members[i].position == i && Bit(s.circle.bitmap, i)
  {
    i :| 0 <= i < |s.members| && s.members[i].address == a;
    IndexOfSeat(s.members, i);
  }

  /** A batch entry notes its payee as paid exactly when they are a member at that moment. */
  lemma BatchNotesMembers(s: Storage, recipient: Address, amount: int128)
    requires Inv(s) && PayBatchEntry(s, recipient, amount).Ok?
    ensures recipient !in s.history.batchPaid
    ensures recipient in PayBatchEntry(s, recipient, amount).value.history.batchPaid <==> HasMember(s.members, recipient)
  {
    hide VrfSound, LogSound, BooksSound, BidsSound;
    IndexFinds(s.members, recipient, 0);
    if recipient in s.history.batchPaid {
      var i := MarkedSeat(s, recipient);
      assert false;
    }
  }

  /** A member paid by a batch is not the resolved recipient of any round, earlier or later. */
  lemma BatchPaidMembersNeverResolve(hash: Hash, s: Storage, calls: seq<Call>, a: Address)
    requires Reachable(hash, s) && a in s.history.batchPaid
    ensures !IsRecipient(Run(hash, s, calls).history, a)
  {
    RunsExtend(hash, s, calls);
    hide VrfSound, LogSound, BooksSound, BidsSound, Owed, ScanContributors;
    var s' := Run(hash, s, calls);
    var i :| 0 <= i < |s.history.batchPaid| && s.history.batchPaid[i] == a;
    assert s'.history.batchPaid[i] == a;
  }

  ghost predicate SameFolk(members: seq<Member>, members': seq<Member>) {
    |members'| == |members| && forall i :: 0 <= i < |members| ==> members'[i].address == members[i].address
  }

  lemma BatchKeepsFolk(s: Storage, recipient: Address, amount: int128)
    requires PayBatchEntry(s, recipient, amount).Ok?
    ensures SameFolk(s.members, PayBatchEntry(s, recipient, amount).value.members)
  {
    hide BatchFee, BatchNet, SetBit, Bit;
  }

  lemma SameFolkHaveMembers(members: seq<Member>, members': seq<Member>, a: Address)
    requires SameFolk(members, members')
    ensures HasMember(members', a) <==> HasMember(members, a)
  {
    if i :| 0 <= i < |members| && members[i].address == a {
      assert members'[i].address == a;
    }
  }

  lemma EntryIsNoted(s: Storage, recipient: Address, amount: int128)
    requires PayBatchEntry(s, recipient, amount).Ok?
    ensures var h, h' := s.history, PayBatchEntry(s, recipient, amount).value.history;
            if HasMember(s.members, recipient)
            then h'.batchPaid == h.batchPaid + [recipient] && h'.strangersPaid == h.strangersPaid
            else h'.strangersPaid == h.strangersPaid + [recipient] && h'.batchPaid == h.batchPaid
  {
    IndexFinds(s.members, recipient, 0);
    hide BatchFee, BatchNet, SetBit, Bit;
  }

  /** A batch notes each of its payees once, in order: the members among them as paid, the others as
      strangers. */
  lemma {:induction false} BatchNotesEachPayee(s: Storage, recipients: seq<Address>, amounts: seq<int128>, i: nat, j: nat)
    requires j < i <= |recipients| == |amounts| && BatchUpTo(s, recipients, amounts, i).Ok?
    ensures var h' := BatchUpTo(s, recipients, amounts, i).value.history;
            if HasMember(s.members, recipients[j]) then recipients[j] in h'.batchPaid else recipients[j] in h'.strangersPaid
  {
    hide PayBatchEntry, HasMember;
    BatchUpToKeepsFolk(s, recipients, amounts, i - 1);
    var before := BatchUpTo(s, recipients, amounts, i - 1).value;
    EntryIsNoted(before, recipients[i - 1], amounts[i - 1]);
    SameFolkHaveMembers(s.members, before.members, recipients[i - 1]);
    if j < i - 1 {
      BatchNotesEachPayee(s, recipients, amounts, i - 1, j);
    }
  }

  lemma {:induction false} BatchUpToKeepsFolk(s: Storage, recipients: seq<Address>, amounts: seq<int128>, i: nat)
    requires i <= |recipients| == |amounts| && BatchUpTo(s, recipients, amounts, i).Ok?
    ensures SameFolk(s.members, BatchUpTo(s, recipients, amounts, i).value.members)
  {
    if i > 0 {
      hide PayBatchEntry;
      BatchUpToKeepsFolk(s, recipients, amounts, i - 1);
      BatchKeepsFolk(BatchUpTo(s, recipients, amounts, i - 1).value, recipients[i - 1], amounts[i - 1]);
    }
  }

  /** Whoever a batch pays and any round resolves, before or after, was a stranger when the batch paid them,
      and is on record as one. */
  lemma ResolvedPayeesWereStrangers(hash: Hash, s: Storage, pay: Call, calls: seq<Call>, j: nat)
    requires Reachable(hash, s) && pay.CallBatch? && Outcome(hash, s, pay).Ok? && j < |pay.recipients|
    ensures var s' := Run(hash, Outcome(hash, s, pay).value, calls);
            IsRecipient(s'.history, pay.recipients[j]) ==>
              !HasMember(s.members, pay.recipients[j]) && pay.recipients[j] in s'.history.strangersPaid
  {
    hide Reachable, Inv, HasMember, Run, BatchUpTo, ScanContributors, Owed;
    var s1 := Outcome(hash, s, pay).value;
    BatchNotesEachPayee(s, pay.recipients, pay.amounts, |pay.recipients|, j);
    hide Outcome, IsRecipient;
    OutcomeIsReachable(hash, s, pay);
    RunsExtend(hash, s1, calls);
    if pay.recipients[j] in s1.history.batchPaid {
      BatchPaidMembersNeverResolve(hash, s1, calls, pay.recipients[j]);
    } else {
      PrefixHas(s1.history.strangersPaid, Run(hash, s1, calls).history.strangersPaid, pay.recipients[j]);
    }
  }

  lemma PrefixHas(a: seq<Address>, b: seq<Address>, x: Address)
    requires a <= b && x in a
    ensures x in b
  {
    var i :| 0 <= i < |a| && a[i] == x;
    assert b[i] == x;
  }

  // ----- a cancelled auction -----

  lemma {:induction false} ContributedAtMostOnce(log: seq<Contribution>, member: Address, round: uint32, amount: int128)
    requires forall i, j :: 0 <= i < j < |log| && log[i].round == log[j].round ==> log[i].member != log[j].member
    requires forall i :: 0 <= i < |log| ==> log[i].amount == amount
    ensures ContributedBy(log, member, round) == Ok(if Contributed(log, member, round) then amount else 0)
  {
    if log != [] {
      var n := |log| - 1;
      ContributedAtMostOnce(log[..n], member, round, amount);
      ContributedSnoc(log[..n], log[n], member, round);
      assert log[..n] + [log[n]] == log;
    }
  }

  /** Cancelling an auction always finds its refund: nothing overflows, and the best bidder gets the fixed
      contribution back, whether or not they contributed. The bids of all others on the round go without one. */
  lemma CancellingRefundsOneContribution(hash: Hash, s: Storage)
    requires Reachable(hash, s)
    ensures CancelRefund(s) == Ok(var best := BestBid(s.bids, s.circle.currentRound);
                                  if best.None? then None else Some((best.value.bidder, s.circle.contributionAmount)))
    ensures BidsOn(BidsOutside(s.bids, s.circle.currentRound), s.circle.currentRound) == []
  {
    ReachableStatesAreSound(hash, s);
    hide SeatsSound, MarksSound, VrfSound, BooksSound, BidsSound, CachesMatch;
    var best := BestBid(s.bids, s.circle.currentRound);
    if best.Some? {
      ContributedAtMostOnce(s.contributions, best.value.bidder, s.circle.currentRound, s.circle.contributionAmount);
    }
    OutsideHasNone(s.bids, s.circle.currentRound);
  }

  lemma {:induction false} OutsideHasNone(bids: seq<Bid>, round: uint32)
    ensures BidsOn(BidsOutside(bids, round), round) == []
  {
    if bids != [] {
      var n := |bids| - 1;
      OutsideHasNone(bids[..n], round);
      if bids[n].round != round {
        BidsOnSnoc(BidsOutside(bids[..n], round), bids[n], round);
      } else {
        assert BidsOutside(bids, round) == BidsOutside(bids[..n], round);
      }
    }
  }
}
