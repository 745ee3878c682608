/** Ballots and bids count once: what a run keeps of a circle's votes and auctions. */
module CircleFairness {
  import opened Common
  import opened Bitmap
  import opened Vrf
  import opened CircleTypes
  import opened Payout
  import opened CircleOps
  import opened CircleInvariant
  import opened CircleSettlement
  import opened CircleProofs
  import opened CircleRefunds

  // ----- refunds keep auctions sound -----

  /** The kept bids on the drained round are some of those there were. */
  ghost predicate Within(kept: seq<Bid>, all: seq<Bid>) {
    |kept| <= |all| && (OneBidEach(all) ==> OneBidEach(kept)) && forall b :: b in kept ==> b in all
  }

  lemma WithinSnoc(kept: seq<Bid>, all: seq<Bid>, b: Bid)
    requires Within(kept, all)
    ensures Within(kept, all + [b]) && Within(kept + [b], all + [b])
  {
    if OneBidEach(all + [b]) {
      assert forall i :: 0 <= i < |all| ==> all[i] == (all + [b])[i];
      assert (all + [b])[|all|] == b;
      forall i | 0 <= i < |kept|
        ensures kept[i].bidder != b.bidder
      {
        assert kept[i] in kept;
      }
    }
  }

  lemma NextKeepsWithin(d: Drain, seen: seq<Bid>, b: Bid, round: uint32, winner: Address, cap: nat)
    requires Within(BidsOn(d.kept, round), BidsOn(seen, round))
    ensures Within(BidsOn(DrainNext(d, b, round, winner, cap).kept, round), BidsOn(seen + [b], round))
  {
    hide BidsOn, Within;
    BidsOnSnoc(seen, b, round);
    BidsOnSnoc(d.kept, b, round);
    WithinSnoc(BidsOn(d.kept, round), BidsOn(seen, round), b);
  }

  lemma {:induction false} DrainKeepsWithin(bids: seq<Bid>, round: uint32, winner: Address, cap: nat, i: nat)
    requires i <= |bids|
    ensures Within(BidsOn(DrainUpTo(bids, round, winner, cap, i).kept, round), BidsOn(bids[..i], round))
  {
    if i > 0 {
      hide BidsOn, Within, DrainNext;
      DrainKeepsWithin(bids, round, winner, cap, i - 1);
      var before, seen, b := DrainUpTo(bids, round, winner, cap, i - 1), bids[..i - 1], bids[i - 1];
      assert seen + [b] == bids[..i];
      NextKeepsWithin(before, seen, b, round, winner, cap);
    } else {
      assert bids[..0] == [];
    }
  }

  lemma RefundKeepsAuctions(s: Storage, s': Storage, round: uint32, limit: uint32)
    requires Refunds(s, s', round, limit) && AuctionsSound(s.bids, s.dutch)
    ensures AuctionsSound(s'.bids, s'.dutch)
  {
    hide BidsOn, DrainUpTo, AsRefunds;
    DrainKeepsWithin(s.bids, round, s.winners[round], Min(limit, LOSER_REFUND_BATCH_CAP), |s.bids|);
    assert s.bids[..|s.bids|] == s.bids;
    forall r: uint32
      ensures r != round ==> BidsOn(s'.bids, r) == BidsOn(s.bids, r)
    {
      RefundReturnsFirstLosers(s, round, limit, r);
    }
  }

  // ----- ballots -----

  /** Every ballot is for a round reached, by somebody with a seat, and nobody has two on one round. */
  ghost predicate BallotsSound(s: Storage) {
    && (forall i :: 0 <= i < |s.votes| ==> s.votes[i].round <= s.circle.currentRound && HasMember(s.members, s.votes[i].voter))
    && (forall i, j :: 0 <= i < j < |s.votes| && s.votes[i].round == s.votes[j].round ==> s.votes[i].voter != s.votes[j].voter)
  }

  lemma BallotKeepsBallots(s: Storage, s': Storage)
    requires BallotsSound(s) && BallotsGrow(s, s'.votes) && s'.circle.currentRound == s.circle.currentRound
    requires forall a :: HasMember(s.members, a) ==> HasMember(s'.members, a)
    ensures BallotsSound(s')
  {
    if s'.votes != s.votes {
      var v :| s'.votes == s.votes + [v] && v.round == s.circle.currentRound && !HasVoted(s.votes, v.voter, v.round)
               && IsActiveMember(s.members, v.voter);
      assert HasMember(s.members, v.voter);
      forall i | 0 <= i < |s.votes| && s.votes[i].round == v.round
        ensures s.votes[i].voter != v.voter
      {
        assert s'.votes[i] == s.votes[i];
      }
    }
  }

  /** Ballots stay sound when they and the round stay, or only the round moves on, and nobody loses a seat. */
  lemma BallotsStay(s: Storage, s': Storage)
    requires BallotsSound(s) && s'.votes == s.votes && s'.circle.currentRound >= s.circle.currentRound
    requires forall a :: HasMember(s.members, a) ==> HasMember(s'.members, a)
    ensures BallotsSound(s')
  {
  }

  // ----- every elementary change -----

  ghost predicate Fair(s: Storage) {
    AuctionsSound(s.bids, s.dutch) && BallotsSound(s)
  }

  lemma StandsFair(s: Storage, s': Storage)
    requires Fair(s) && Stands(s, s')
    ensures Fair(s')
  {
    hide AuctionsSound, BallotsSound, BallotsGrow;
    SameSeatsHold(s.members, s'.members);
    BallotKeepsBallots(s, s');
  }

  lemma GrowsFair(s: Storage, s': Storage)
    requires Fair(s) && Grows(s, s')
    ensures Fair(s')
  {
    forall a | HasMember(s.members, a)
      ensures HasMember(s'.members, a)
    {
      GrowsHasMember(s.members, s'.members, a);
    }
    hide AuctionsSound, BallotsSound, HasMember, Seated;
    BallotsStay(s, s');
  }

  lemma LogsFair(s: Storage, s': Storage, c: Contribution)
    requires Fair(s) && LogsOne(s, s', c)
    ensures Fair(s')
  {
    hide AuctionsSound, BallotsSound, HasMember, LedgersSound;
    BallotsStay(s, s');
  }

  lemma BatchFair(s: Storage, s': Storage, k: nat)
    requires Fair(s) && UnmarkedPaid(s, s', k)
    ensures Fair(s')
  {
    hide AuctionsSound, BallotsSound, SetBit, Bit, Received;
    SameChairsHaveMembers(s.members, s'.members);
    BallotsStay(s, s');
  }

  lemma SettlesFair(s: Storage, s': Storage, k: nat, x: Settlement)
    requires Fair(s) && Settles(s, s', k, x)
    ensures Fair(s')
  {
    hide AuctionsSound, BallotsSound, SetBit, Received, SettlementSound, LedgersSound, UnpaidSeat, Resolved, ScanTotal;
    SameChairsHaveMembers(s.members, s'.members);
    BallotsStay(s, s');
  }

  lemma RebidsFair(s: Storage, s': Storage)
    requires Fair(s) && Rebids(s, s')
    ensures Fair(s')
  {
    hide AuctionsSound, BallotsSound;
    BallotsStay(s, s');
  }

  lemma RefundsFair(s: Storage, s': Storage, round: uint32, limit: uint32)
    requires Fair(s) && Refunds(s, s', round, limit)
    ensures Fair(s')
  {
    RefundKeepsAuctions(s, s', round, limit);
    hide AuctionsSound, BallotsSound, RefundDrain, AsRefunds;
    BallotsStay(s, s');
  }

  lemma MicroFair(s: Storage, s': Storage)
    requires Fair(s) && Micro(s, s')
    ensures Fair(s')
  {
    hide Stands, Rebids, Grows, LogsOne, UnmarkedPaid, Settles, PaysShares, Refunds, Fair;
    if Stands(s, s') {
      StandsFair(s, s');
    } else if Rebids(s, s') {
      RebidsFair(s, s');
    } else if Grows(s, s') {
      GrowsFair(s, s');
    } else if c :| LogsOne(s, s', c) {
      LogsFair(s, s', c);
    } else if k :| UnmarkedPaid(s, s', k) {
      BatchFair(s, s', k);
    } else if k, x :| SettlesRound(s, s', k, x) {
      SettlesFair(s, s', k, x);
    } else {
      var r, limit :| Refunds(s, s', r, limit);
      RefundsFair(s, s', r, limit);
    }
  }

  lemma {:induction false} TraceFair(t: seq<Storage>, i: nat)
    requires Trace(t) && i < |t| && Fair(t[0])
    ensures Fair(t[i])
  {
    hide Inv, Micro, Fair;
    if i > 0 {
      TraceFair(t, i - 1);
      MicroFair(t[i - 1], t[i]);
    }
  }

  lemma InitIsFair(launch: Launch, config: CircleConfig)
    requires Init(launch, config).Ok?
    ensures Fair(Init(launch, config).value)
  {
  }

  /** Main result: in every reachable circle nobody has two bids or two ballots on one round, ballots come
      from members, and a Dutch round has at most the one bid that cleared it. */
  lemma BidsAndBallotsCountOnce(hash: Hash, s: Storage)
    requires Reachable(hash, s)
    ensures forall r: uint32 :: OneBidEach(BidsOn(s.bids, r))
    ensures forall r: uint32 :: r in s.dutch ==> |BidsOn(s.bids, r)| <= if s.dutch[r].resolved then 1 else 0
    ensures BallotsSound(s)
  {
    hide Inv, Outcome, Micro, BallotsSound, BidsOn;
    var launch, config, calls :| Init(launch, config).Ok? && s == Run(hash, Init(launch, config).value, calls);
    InitIsSound(launch, config);
    InitIsFair(launch, config);
    var t := RunTrace(hash, Init(launch, config).value, calls);
    TraceFair(t, |t| - 1);
  }

  // ----- what a vote means -----

  function Voters(votes: seq<VoteEntry>, round: uint32): set<Address> {
    set i | 0 <= i < |votes| && votes[i].round == round :: votes[i].voter
  }

  lemma VotersSnoc(votes: seq<VoteEntry>, v: VoteEntry, round: uint32)
    ensures Voters(votes + [v], round) == if v.round == round then Voters(votes, round) + {v.voter} else Voters(votes, round)
  {
    assert forall i :: 0 <= i < |votes| ==> (votes + [v])[i] == votes[i];
    assert (votes + [v])[|votes|] == v;
  }

  lemma {:induction false} BallotsAreVoters(votes: seq<VoteEntry>, round: uint32)
    requires forall i, j :: 0 <= i < j < |votes| && votes[i].round == votes[j].round ==> votes[i].voter != votes[j].voter
    ensures |Voters(votes, round)| == CountVotes(votes, round)
  {
    if votes == [] {
      assert Voters(votes, round) == {};
    } else {
      var n := |votes| - 1;
      BallotsAreVoters(votes[..n], round);
      assert votes[..n] + [votes[n]] == votes;
      VotersSnoc(votes[..n], votes[n], round);
      if votes[n].round == round {
        assert votes[n].voter !in Voters(votes[..n], round);
      }
      hide Voters;
    }
  }

  /** A round resolved by vote in a reachable circle has more distinct voters than half the active members,
      all of them with a seat, and goes to an active unpaid member with the most ballots. */
  lemma VotedRoundsHaveAMajorityOfVoters(hash: Hash, s: Storage, round: uint32)
    requires Reachable(hash, s) && ResolveVote(s.circle, s.members, s.votes, round).Ok?
    ensures 2 * |Voters(s.votes, round)| > CountActive(s.members)
    ensures forall a :: a in Voters(s.votes, round) ==> HasMember(s.members, a)
    ensures Eligible(s.circle, s.members, ResolveVote(s.circle, s.members, s.votes, round).value)
  {
    hide Reachable, Inv, ResolveVote, HasMember;
    BidsAndBallotsCountOnce(hash, s);
    BallotsAreVoters(s.votes, round);
    assert Seated(s.members) by { ReachableStatesAreSound(hash, s); InvGivesSeated(s); }
    VoteNeedsQuorumAndPlurality(s.circle, s.members, s.votes, round);
  }

  lemma InvGivesSeated(s: Storage)
    requires Inv(s)
    ensures Seated(s.members)
  {
    hide MarksSound, VrfSound, LogSound, BooksSound, BidsSound, Seated;
  }

  // ----- the Dutch price -----

  /** The price falls by the configured decay per ledger from its start to its floor, and never leaves
      that range. */
  lemma DutchPriceDecays(a: DutchAuction, sequence: uint32, later: uint32)
    requires a.floorBips <= a.startBips <= 10000 && a.startLedger <= sequence <= later
    ensures a.floorBips <= DutchPrice(a, later) <= DutchPrice(a, sequence) <= a.startBips
    ensures DutchPrice(a, sequence) == Max(a.floorBips, a.startBips - a.decayPerLedger * (sequence - a.startLedger))
  {
    var x, y := a.decayPerLedger * (sequence - a.startLedger), a.decayPerLedger * (later - a.startLedger);
    assert 0 <= x <= y by { DecayGrows(a.decayPerLedger, sequence - a.startLedger, later - a.startLedger); }
  }

  lemma DecayGrows(rate: nat, x: nat, y: nat)
    requires x <= y
    ensures 0 <= rate * x <= rate * y
  {
    assert rate * (y - x) >= 0;
  }
}
