/** When the current round of a circle can still be settled by some run, and when it never is again. */
module CircleStalls {
  import opened Common
  import opened Bitmap
  import opened Vrf
  import opened CircleTypes
  import opened Payout
  import opened CircleOps
  import opened CircleInvariant
  import opened CircleSettlement
  import opened CircleProofs
  import opened CircleRefunds
  import opened CircleRuns
  import opened CircleFairness
  import opened CircleStatus
  import opened CirclePayments
  import opened CircleSweep

  // ----- ballots still to come -----

  /** The active members among the first `i` without a ballot on the round. */
  ghost function Undecided(members: seq<Member>, votes: seq<VoteEntry>, round: uint32, i: nat): nat
    requires i <= |members|
  {
    if i == 0 then 0
    else
      var m := members[i - 1];
      Undecided(members, votes, round, i - 1) + if m.status == InGoodStanding && !HasVoted(votes, m.address, round) then 1 else 0
  }

  /** The ballots the current round can still get: those of undecided members and of free seats. */
  ghost function OpenBallots(s: Storage): int {
    Undecided(s.members, s.votes, s.circle.currentRound, |s.members|) + s.circle.maxMembers - |s.members|
  }

  /** With `n` more ballots the candidate can lead the tally. */
  predicate CouldLead(tally: map<Address, nat>, e: Address, n: int) {
    && (e in tally || n > 0)
    && forall b :: b in tally && b != e ==> tally[b] < Payout.Of(tally, e) + n || (tally[b] == Payout.Of(tally, e) + n && e <= b)
  }

  /** Whom a vote could still elect: an unpaid active member, or somebody yet to take a free seat. */
  ghost predicate Electable(s: Storage, e: Address) {
    && CouldLead(TallyVotes(s.votes, s.circle.currentRound), e, OpenBallots(s))
    && (Eligible(s.circle, s.members, e) || (!HasMember(s.members, e) && |s.members| < s.circle.maxMembers))
  }

  /** The current round has somebody to go to, now or after further calls. */
  ghost predicate Settleable(s: Storage) {
    if s.circle.payoutType == Vote then exists e :: Electable(s, e) else !Stuck(s)
  }

  lemma {:induction false} UndecidedFalls(members: seq<Member>, members': seq<Member>, votes: seq<VoteEntry>, votes': seq<VoteEntry>,
                                          round: uint32, i: nat, k: nat)
    requires i <= |members| == |members'| && votes <= votes'
    requires forall j :: 0 <= j < |members| ==>
               members'[j].address == members[j].address && (members[j].status != InGoodStanding ==> members'[j].status != InGoodStanding)
    ensures Undecided(members', votes', round, i) <= Undecided(members, votes, round, i)
    ensures k < i && members[k].status == InGoodStanding && !HasVoted(votes, members[k].address, round)
            && HasVoted(votes', members[k].address, round) ==>
              Undecided(members', votes', round, i) + 1 <= Undecided(members, votes, round, i)
  {
    if i > 0 {
      UndecidedFalls(members, members', votes, votes', round, i - 1, k);
      VotedStays(votes, votes', members[i - 1].address, round);
      hide HasVoted;
    }
  }

  lemma VotedStays(votes: seq<VoteEntry>, votes': seq<VoteEntry>, a: Address, round: uint32)
    requires votes <= votes'
    ensures HasVoted(votes, a, round) ==> HasVoted(votes', a, round)
  {
    if i :| 0 <= i < |votes| && votes[i].voter == a && votes[i].round == round {
      assert votes'[i] == votes[i];
    }
  }

  lemma FewerBallotsLead(tally: map<Address, nat>, e: Address, n: int, more: int)
    requires CouldLead(tally, e, n) && n <= more
    ensures CouldLead(tally, e, more)
  {
  }

  /** Whoever can lead after somebody's ballot could lead before it, with one ballot more to come. */
  lemma BallotTakesNoChance(tally: map<Address, nat>, x: Address, e: Address, n: int)
    requires CouldLead(tally[x := Payout.Of(tally, x) + 1], e, n - 1) && n > 0
    ensures CouldLead(tally, e, n)
  {
    var after := tally[x := Payout.Of(tally, x) + 1];
    forall b | b in tally && b != e
      ensures tally[b] < Payout.Of(tally, e) + n || (tally[b] == Payout.Of(tally, e) + n && e <= b)
    {
      assert b in after && after[b] >= tally[b];
    }
  }

  lemma TallySnoc(votes: seq<VoteEntry>, v: VoteEntry, round: uint32)
    ensures TallyVotes(votes + [v], round)
            == if v.round == round then TallyVotes(votes, round)[v.voteFor := Payout.Of(TallyVotes(votes, round), v.voteFor) + 1]
               else TallyVotes(votes, round)
    ensures HasVoted(votes + [v], v.voter, v.round)
  {
    assert (votes + [v])[..|votes|] == votes;
    assert (votes + [v])[|votes|] == v;
  }

  // ----- no elementary change makes anybody electable -----

  lemma EligibleBefore(circle: Circle, circle': Circle, members: seq<Member>, members': seq<Member>, e: Address)
    requires |members'| == |members| && Eligible(circle', members', e)
    requires forall j :: 0 <= j < |members| ==>
               && members'[j].address == members[j].address && members'[j].position == members[j].position
               && (members[j].status != InGoodStanding ==> members'[j].status != InGoodStanding)
    requires forall p: nat :: Bit(circle.bitmap, p) ==> Bit(circle'.bitmap, p)
    ensures Eligible(circle, members, e)
  {
    var i :| UnpaidSeat(circle', members', i) && members'[i].address == e;
    assert UnpaidSeat(circle, members, i);
  }

  /** When seats keep their people, standings only fall, bits only get set and ballots only come in from
      undecided members, nobody becomes electable. */
  lemma KeptSeatsElectNobody(s: Storage, s': Storage, e: Address)
    requires Electable(s', e) && SameFolk(s.members, s'.members) && BallotsGrow(s, s'.votes)
    requires forall j :: 0 <= j < |s.members| ==>
               && s'.members[j].position == s.members[j].position
               && (s.members[j].status != InGoodStanding ==> s'.members[j].status != InGoodStanding)
    requires forall p: nat :: Bit(s.circle.bitmap, p) ==> Bit(s'.circle.bitmap, p)
    requires s'.circle.maxMembers == s.circle.maxMembers && s'.circle.currentRound == s.circle.currentRound
    requires |s.members| <= s.circle.maxMembers
    ensures Electable(s, e)
  {
    hide Bit, CouldLead, TallyVotes, HasVoted, Undecided, UnpaidSeat;
    if Eligible(s'.circle, s'.members, e) {
      EligibleBefore(s.circle, s'.circle, s.members, s'.members, e);
    }
    SameFolkHaveMembers(s.members, s'.members, e);
    BallotsLeaveNoChance(s, s', e);
    hide Eligible, HasMember;
  }

  lemma BallotsLeaveNoChance(s: Storage, s': Storage, e: Address)
    requires SameFolk(s.members, s'.members) && BallotsGrow(s, s'.votes) && |s.members| <= s.circle.maxMembers
    requires forall j :: 0 <= j < |s.members| && s.members[j].status != InGoodStanding ==> s'.members[j].status != InGoodStanding
    requires s'.circle.maxMembers == s.circle.maxMembers && s'.circle.currentRound == s.circle.currentRound
    requires CouldLead(TallyVotes(s'.votes, s.circle.currentRound), e, OpenBallots(s'))
    ensures CouldLead(TallyVotes(s.votes, s.circle.currentRound), e, OpenBallots(s))
  {
    hide CouldLead, TallyVotes, HasVoted, Undecided;
    var round, n := s.circle.currentRound, |s.members|;
    UndecidedFalls(s.members, s'.members, s.votes, s'.votes, round, n, 0);
    if s'.votes == s.votes {
      FewerBallotsLead(TallyVotes(s.votes, round), e, OpenBallots(s'), OpenBallots(s));
    } else {
      var v :| s'.votes == s.votes + [v] && v.round == round && !HasVoted(s.votes, v.voter, round) && IsActiveMember(s.members, v.voter);
      var k :| 0 <= k < n && s.members[k].address == v.voter && s.members[k].status == InGoodStanding;
      TallySnoc(s.votes, v, round);
      UndecidedFalls(s.members, s'.members, s.votes, s'.votes, round, n, k);
      FewerBallotsLead(TallyVotes(s'.votes, round), e, OpenBallots(s'), OpenBallots(s) - 1);
      BallotTakesNoChance(TallyVotes(s.votes, round), v.voteFor, e, OpenBallots(s));
    }
  }

  lemma {:induction false} SeatsAddBallots(members: seq<Member>, members': seq<Member>, votes: seq<VoteEntry>, round: uint32, i: nat)
    requires |members| <= i <= |members'| && members'[..|members|] == members
    ensures Undecided(members', votes, round, i) <= Undecided(members, votes, round, |members|) + i - |members|
    decreases i
  {
    if i == |members| {
      UndecidedOfPrefix(members, members', votes, round, i);
    } else {
      SeatsAddBallots(members, members', votes, round, i - 1);
    }
  }

  lemma {:induction false} UndecidedOfPrefix(members: seq<Member>, members': seq<Member>, votes: seq<VoteEntry>, round: uint32, i: nat)
    requires i <= |members| <= |members'| && members'[..|members|] == members
    ensures Undecided(members', votes, round, i) == Undecided(members, votes, round, i)
  {
    if i > 0 {
      UndecidedOfPrefix(members, members', votes, round, i - 1);
      assert members'[i - 1] == members'[..|members|][i - 1];
    }
  }

  lemma NewSeatsElectNobody(s: Storage, s': Storage, e: Address)
    requires Electable(s', e) && Grows(s, s')
    ensures Electable(s, e)
  {
    var round := s.circle.currentRound;
    SeatsAddBallots(s.members, s'.members, s.votes, round, |s'.members|);
    FewerBallotsLead(TallyVotes(s.votes, round), e, OpenBallots(s'), OpenBallots(s));
    hide CouldLead, TallyVotes, Undecided, Bit;
    NewSeatsAreNew(s, s', e);
    hide Grows, HasMember, Eligible;
  }

  lemma NewSeatsAreNew(s: Storage, s': Storage, e: Address)
    requires Grows(s, s')
    requires Eligible(s'.circle, s'.members, e) || (!HasMember(s'.members, e) && |s'.members| < s'.circle.maxMembers)
    ensures Eligible(s.circle, s.members, e) || (!HasMember(s.members, e) && |s.members| < s.circle.maxMembers)
  {
    hide Bit;
    if Eligible(s'.circle, s'.members, e) {
      var i :| UnpaidSeat(s'.circle, s'.members, i) && s'.members[i].address == e;
      if i < |s.members| {
        assert s'.members[i] == s'.members[..|s.members|][i];
        assert UnpaidSeat(s.circle, s.members, i);
      } else {
        forall j | 0 <= j < |s.members|
          ensures s.members[j].address != e
        {
          assert s'.members[j] == s'.members[..|s.members|][j];
        }
      }
    } else if HasMember(s.members, e) {
      GrowsHasMember(s.members, s'.members, e);
    }
  }

  lemma ResolvingElects(s: Storage)
    requires CanResolve(s) && s.circle.payoutType == Vote && |s.members| <= s.circle.maxMembers
    ensures exists e :: Electable(s, e)
  {
    var e := Leader(TallyVotes(s.votes, s.circle.currentRound)).value;
    assert CouldLead(TallyVotes(s.votes, s.circle.currentRound), e, OpenBallots(s));
    assert Electable(s, e);
  }

  lemma StandsElectsNobody(s: Storage, s': Storage, e: Address)
    requires Stands(s, s') && Electable(s', e) && |s.members| <= s.circle.maxMembers
    ensures Electable(s, e)
  {
    hide Electable, NoNewStanding, StrangersGrow, BallotsGrow, Bit;
    KeptSeatsElectNobody(s, s', e);
  }

  lemma BatchElectsNobody(s: Storage, s': Storage, k: nat, e: Address)
    requires UnmarkedPaid(s, s', k) && Electable(s', e) && |s.members| <= s.circle.maxMembers
    ensures Electable(s, e)
  {
    hide Electable, Received, Bit, SetBit;
    forall p: nat | Bit(s.circle.bitmap, p)
      ensures Bit(s'.circle.bitmap, p)
    {
      MarkingSpendsOnly(s.circle.bitmap, k, p);
    }
    KeptSeatsElectNobody(s, s', e);
  }

  /** Nothing that leaves members, ballots and bits alone. */
  lemma SameSeatsElectNobody(s: Storage, s': Storage, e: Address)
    requires s'.members == s.members && s'.votes == s.votes && s'.circle.bitmap == s.circle.bitmap && Electable(s', e)
    requires s'.circle.maxMembers == s.circle.maxMembers && s'.circle.currentRound == s.circle.currentRound
    requires |s.members| <= s.circle.maxMembers
    ensures Electable(s, e)
  {
    hide Electable, Bit;
    KeptSeatsElectNobody(s, s', e);
  }

  lemma LogElectsNobody(s: Storage, s': Storage, c: Contribution, e: Address)
    requires LogsOne(s, s', c) && Electable(s', e) && |s.members| <= s.circle.maxMembers
    ensures Electable(s, e)
  {
    hide Electable, HasMember, Contributed, LedgersSound, WithTotal, WithContributor;
    SameSeatsElectNobody(s, s', e);
  }

  lemma RebidElectsNobody(s: Storage, s': Storage, e: Address)
    requires Rebids(s, s') && Electable(s', e) && |s.members| <= s.circle.maxMembers
    ensures Electable(s, e)
  {
    hide Electable, BidsOn, AuctionsSound;
    SameSeatsElectNobody(s, s', e);
  }

  lemma RefundElectsNobody(s: Storage, s': Storage, round: uint32, limit: uint32, e: Address)
    requires Refunds(s, s', round, limit) && Electable(s', e) && |s.members| <= s.circle.maxMembers
    ensures Electable(s, e)
  {
    hide Electable, RefundDrain, AsRefunds;
    SameSeatsElectNobody(s, s', e);
  }

  lemma MicroElectsNobody(s: Storage, s': Storage, e: Address)
    requires Inv(s) && Micro(s, s') && Electable(s', e) && s.circle.payoutType == Vote
    ensures exists x :: Electable(s, x)
  {
    hide Inv, Stands, Rebids, Grows, LogsOne, UnmarkedPaid, Settles, PaysShares, NetsPool, Refunds, Electable;
    SoundSeats(s);
    if Stands(s, s') {
      StandsElectsNobody(s, s', e);
    } else if Rebids(s, s') {
      RebidElectsNobody(s, s', e);
    } else if Grows(s, s') {
      NewSeatsElectNobody(s, s', e);
    } else if c :| LogsOne(s, s', c) {
      LogElectsNobody(s, s', c, e);
    } else if k :| UnmarkedPaid(s, s', k) {
      BatchElectsNobody(s, s', k, e);
    } else if k, x :| SettlesRound(s, s', k, x) {
      SettlingElects(s, s', k, x);
    } else {
      var r, limit :| Refunds(s, s', r, limit);
      RefundElectsNobody(s, s', r, limit, e);
    }
  }

  lemma SettlingElects(s: Storage, s': Storage, k: nat, x: Settlement)
    requires Inv(s) && Settles(s, s', k, x) && s.circle.payoutType == Vote
    ensures exists e :: Electable(s, e)
  {
    SoundSeats(s);
    hide Inv, CanResolve, Electable, LedgersSound, SettlementSound, Received, SetBit, SameChairs;
    ResolvingElects(s);
  }

  lemma MicroSettlesOrStays(s: Storage, s': Storage)
    requires Inv(s) && Micro(s, s') && s.circle.payoutType == Vote && !(exists x :: Electable(s, x))
    ensures s'.circle.currentRound == s.circle.currentRound && s'.circle.payoutType == Vote && !(exists x :: Electable(s', x))
  {
    hide Inv, Micro, Electable, Settles, PaysShares, NetsPool, SetBit, Owed, ScanContributors, IsInactiveMember;
    if k, x :| SettlesRound(s, s', k, x) {
      SettlingElects(s, s', k, x);
      assert false;
    }
    MicroCalmOrSettles(s, s');
    MicroExtends(s, s');
    if e :| Electable(s', e) {
      MicroElectsNobody(s, s', e);
    }
  }

  lemma {:induction false} TraceElectsNobody(t: seq<Storage>, i: nat)
    requires Trace(t) && i < |t| && t[0].circle.payoutType == Vote && !(exists e :: Electable(t[0], e))
    ensures t[i].circle.currentRound == t[0].circle.currentRound && t[i].circle.payoutType == Vote && !(exists e :: Electable(t[i], e))
  {
    hide Inv, Micro, Electable;
    if i > 0 {
      TraceElectsNobody(t, i - 1);
      TraceIsSound(t, i - 1);
      MicroSettlesOrStays(t[i - 1], t[i]);
    }
  }

  /** Main result on stalls: a round with nobody left to go to is never settled, whatever is called. */
  lemma UnsettleableRoundsNeverSettle(hash: Hash, s: Storage, calls: seq<Call>)
    requires Reachable(hash, s) && !Settleable(s)
    ensures Run(hash, s, calls).circle.currentRound == s.circle.currentRound && !Settleable(Run(hash, s, calls))
  {
    hide Inv, Micro, Outcome, Stuck, Electable, Owed, ScanContributors, IsInactiveMember;
    ReachableStatesAreSound(hash, s);
    RunsExtend(hash, s, calls);
    if s.circle.payoutType == Vote {
      var t := RunTrace(hash, s, calls);
      TraceElectsNobody(t, |t| - 1);
    } else {
      StuckRoundsNeverSettle(hash, s, calls);
    }
  }

  // ----- circles that no call can bring back -----

  /** Active, still pending, or with a dispute entry whose resolution makes it active. */
  predicate Alive(s: Storage) {
    s.circle.status == Active || s.circle.status == Pending || s.dispute.Some?
  }

  /** A cancelled, completed or disputed circle without a dispute entry stays so, and settles nothing. */
  lemma DeadStaysDead(hash: Hash, s: Storage, c: Call)
    requires !Alive(s)
    ensures !Alive(Settled(s, Outcome(hash, s, c))) && Settled(s, Outcome(hash, s, c)).circle.currentRound == s.circle.currentRound
  {
    hide Outcome, DefaultedFirst, Cleared;
    if c.CallResolve? {
      ResolutionOutcome(hash, s, c);
    } else {
      ClosedCircleKeeps(hash, s, c);
    }
  }

  lemma {:induction false} DeadCirclesNeverSettle(hash: Hash, s: Storage, calls: seq<Call>)
    requires !Alive(s)
    ensures !Alive(Run(hash, s, calls)) && Run(hash, s, calls).circle.currentRound == s.circle.currentRound
  {
    if calls != [] {
      hide Outcome, Alive;
      DeadCirclesNeverSettle(hash, s, calls[..|calls| - 1]);
      DeadStaysDead(hash, Run(hash, s, calls[..|calls| - 1]), calls[|calls| - 1]);
    }
  }

  // ----- getting ready -----

  ghost predicate Reaches(hash: Hash, s: Storage, t: Storage) {
    Reachable(hash, s) && Reachable(hash, t) && exists calls :: t == Run(hash, s, calls)
  }

  lemma ReachesItself(hash: Hash, s: Storage)
    requires Reachable(hash, s)
    ensures Reaches(hash, s, s)
  {
    hide Reachable;
    assert s == Run(hash, s, []);
  }

  lemma ReachesNext(hash: Hash, s: Storage, t: Storage, c: Call)
    requires Reaches(hash, s, t) && Outcome(hash, t, c).Ok?
    ensures Reaches(hash, s, Outcome(hash, t, c).value)
  {
    hide Reachable, Outcome;
    var calls :| t == Run(hash, s, calls);
    RunThen(hash, s, calls, c);
    assert Outcome(hash, t, c).value == Run(hash, s, calls + [c]);
    OutcomeIsReachable(hash, t, c);
  }

  lemma ReachesOn(hash: Hash, s: Storage, t: Storage, c: Call, u: Storage)
    requires Reaches(hash, s, t) && Outcome(hash, t, c) == Ok(u)
    ensures Reaches(hash, s, u)
  {
    hide Reaches, Outcome;
    ReachesNext(hash, s, t, c);
  }

  /** The window closes and the circle grows old enough before the clock ends. */
  predicate CanBecomeDue(c: Circle) {
    && ForfeitTime(c).Some? && ForfeitTime(c).value < U64_MAX
    && c.createdAt + c.minDuration <= U64_MAX
  }

  /** The pool leaves room for the product of a fee of everything. */
  predicate Affordable(s: Storage) {
    RoundTotal(s, s.circle.currentRound) * 10_000 <= I128_MAX
  }

  /** Only somebody to resolve is missing: the circle is active, its window closed, and its fee takes the whole
      pool, so that the round settles empty. */
  predicate Ready(s: Storage) {
    && s.circle.status == Active && WindowClosed(s.circle, s.now) && !TooYoung(s.circle, s.now)
    && s.feeBps == 10_000 && Affordable(s)
  }

  /** The same round of the same circle, with the same people, bits, ballots and pool. */
  predicate SameRound(s: Storage, t: Storage) {
    && t.members == s.members && t.votes == s.votes && t.contributions == s.contributions
    && t.roundTotals == s.roundTotals && t.circle == s.circle.(status := t.circle.status)
  }

  lemma SameRoundSettles(s: Storage, t: Storage)
    requires SameRound(s, t)
    ensures Settleable(t) <==> Settleable(s)
    ensures Affordable(t) <==> Affordable(s)
  {
    hide CouldLead, TallyVotes, Undecided, Bit, ScanTotal, HasMember;
    if s.circle.payoutType == Vote {
      forall e
        ensures Electable(t, e) <==> Electable(s, e)
      {
        assert Eligible(t.circle, t.members, e) <==> Eligible(s.circle, s.members, e) by { SameBitsEligible(s.circle, t.circle, s.members, e); }
      }
      hide Electable;
    } else {
      assert forall i :: UnpaidSeat(t.circle, t.members, i) <==> UnpaidSeat(s.circle, s.members, i);
    }
  }

  lemma SameBitsEligible(c: Circle, c': Circle, members: seq<Member>, e: Address)
    requires c'.bitmap == c.bitmap
    ensures Eligible(c', members, e) <==> Eligible(c, members, e)
  {
    hide Bit;
    if i :| UnpaidSeat(c, members, i) && members[i].address == e {
      assert UnpaidSeat(c', members, i);
    }
    if i :| UnpaidSeat(c', members, i) && members[i].address == e {
      assert UnpaidSeat(c, members, i);
    }
  }

  lemma Activates(hash: Hash, s: Storage) returns (t: Storage)
    requires Reachable(hash, s) && Alive(s)
    ensures Reaches(hash, s, t) && t == s.(circle := s.circle.(status := Active), dispute := t.dispute)
  {
    hide Reachable, Reaches;
    ReachesItself(hash, s);
    if s.circle.status == Active {
      t := s;
    } else {
      var d := s;
      if s.dispute.None? {
        d := s.(circle := s.circle.(status := Disputed), dispute := Some(Dispute(s.admin, s.now, 0, 0, 0)));
        assert Outcome(hash, s, CallDispute(s.admin)) == Ok(d);
        ReachesOn(hash, s, s, CallDispute(s.admin), d);
      }
      var closed := Some(d.dispute.value.(resolvedAt := s.now, resolution := 1, resolvedBy := s.admin));
      t := d.(circle := s.circle.(status := Active), dispute := closed);
      assert Outcome(hash, d, CallResolve(s.admin, 1, true)) == Ok(t);
      ReachesOn(hash, s, d, CallResolve(s.admin, 1, true), t);
    }
  }

  /** A time by which the window is closed and the circle old enough. */
  function DueTime(c: Circle, now: uint64): uint64
    requires CanBecomeDue(c)
  {
    Max(now, Max(ForfeitTime(c).value + 1, c.createdAt + c.minDuration))
  }

  lemma GetsReady(hash: Hash, s: Storage) returns (t: Storage)
    requires Reachable(hash, s) && Alive(s) && Settleable(s) && CanBecomeDue(s.circle) && Affordable(s)
    ensures Reaches(hash, s, t) && Ready(t) && Settleable(t) && t.circle.currentRound == s.circle.currentRound
  {
    hide Reachable, Reaches, Settleable, Affordable;
    var active := Activates(hash, s);
    var waived := active.(feeBps := 10_000);
    assert Outcome(hash, active, CallSetFee(active.admin, 10_000)) == Ok(waived);
    ReachesOn(hash, s, active, CallSetFee(active.admin, 10_000), waived);
    var due := DueTime(s.circle, s.now);
    t := waived.(now := due);
    assert Outcome(hash, waived, Tick(due - s.now, 0)) == Ok(t);
    ReachesOn(hash, s, waived, Tick(due - s.now, 0), t);
    SameRoundSettles(s, t);
  }

  // ----- the last step -----

  /** A ready circle with somebody to resolve settles at the admin's trigger. */
  lemma ReadySettles(hash: Hash, s: Storage, t: Storage)
    requires Reaches(hash, s, t) && Ready(t) && CanResolve(t)
    ensures Outcome(hash, t, CallTrigger(t.admin, t.circle.currentRound, true, true)).Ok?
    ensures Reaches(hash, s, Outcome(hash, t, CallTrigger(t.admin, t.circle.currentRound, true, true)).value)
    ensures Outcome(hash, t, CallTrigger(t.admin, t.circle.currentRound, true, true)).value.circle.currentRound == t.circle.currentRound + 1
  {
    hide Reachable, CanResolve, TriggerInternal, RoundTotal, SumsFit, Resolve, SeatsSound, MarksSound, VrfSound, LogSound, BooksSound, BidsSound;
    ReachableStatesAreSound(hash, t);
    TriggerSettlesExactly(hash, t, t.circle.currentRound, true, true);
    var c := CallTrigger(t.admin, t.circle.currentRound, true, true);
    assert Outcome(hash, t, c) == TriggerInternal(hash, t, t.circle.currentRound, true, true);
    var k, x := TriggerSettles(hash, t, t.circle.currentRound, true, true);
    ReachesNext(hash, s, t, c);
    hide Outcome, Reaches, Inv;
  }

  // ----- taking free seats -----

  function Welcoming(a: Address): uint32 {
    U32_MAX
  }

  function Greatest(members: seq<Member>): Address {
    if members == [] then 0 else Max(Greatest(members[..|members| - 1]), members[|members| - 1].address)
  }

  lemma {:induction false} GreatestIsGreatest(members: seq<Member>)
    ensures forall i :: 0 <= i < |members| ==> members[i].address <= Greatest(members)
  {
    if members != [] {
      GreatestIsGreatest(members[..|members| - 1]);
    }
  }

  /** Somebody without a seat. */
  function Newcomer(members: seq<Member>): Address {
    Greatest(members) + 1
  }

  lemma NewcomerHasNoSeat(members: seq<Member>)
    ensures !HasMember(members, Newcomer(members))
  {
    GreatestIsGreatest(members);
  }

  /** `t` with one more member. */
  function Joined(t: Storage, a: Address): Storage
    requires |t.members| < U32_MAX
  {
    t.(circle := t.circle.(memberCount := |t.members| + 1), members := t.members + [NewMember(a, |t.members|, t.now)],
       memberStatus := t.memberStatus[a := InGoodStanding])
  }

  lemma InvitationSeats(hash: Hash, t: Storage, a: Address)
    requires t.circle.status == Active && |t.members| < t.circle.maxMembers && !HasMember(t.members, a)
    ensures Outcome(hash, t, CallInvite(t.circle.organizer, [a], Welcoming)) == Ok(Joined(t, a))
  {
    IndexFinds(t.members, a, 0);
    assert InviteUpTo(t.circle, t.members, [a], Welcoming, t.now, 0) == Ok(t.members);
    assert InviteUpTo(t.circle, t.members, [a], Welcoming, t.now, 1) == Ok(t.members + [NewMember(a, |t.members|, t.now)]);
    assert [a][..0] == [];
    assert MarkStatus(t.memberStatus, [], InGoodStanding) == t.memberStatus;
    assert MarkStatus(t.memberStatus, [a], InGoodStanding) == t.memberStatus[a := InGoodStanding];
  }

  /** An invited member is unpaid and active, and the circle stays ready. */
  lemma JoinedIsUnpaid(hash: Hash, t: Storage, a: Address)
    requires Reachable(hash, t) && Ready(t) && |t.members| < t.circle.maxMembers
    ensures var u := Joined(t, a);
            Ready(u) && UnpaidSeat(u.circle, u.members, |t.members|) && Eligible(u.circle, u.members, a)
  {
    var u := Joined(t, a);
    hide Reachable, Ready;
    assert !Bit(t.circle.bitmap, |t.members|) by { NoBitBeyond(hash, t); }
    hide Bit;
    assert u.members[|t.members|].address == a;
    JoinedIsReady(t, a);
  }

  lemma JoinedIsReady(t: Storage, a: Address)
    requires Ready(t) && |t.members| < U32_MAX
    ensures Ready(Joined(t, a))
  {
    hide ScanTotal;
  }

  lemma NoBitBeyond(hash: Hash, t: Storage)
    requires Reachable(hash, t)
    ensures !Bit(t.circle.bitmap, |t.members|)
  {
    NobodyIsPaidTwice(hash, t);
  }

  /** A ready circle with a free seat reaches one with one more member. */
  lemma Invites(hash: Hash, s: Storage, t: Storage, a: Address)
    requires Reaches(hash, s, t) && Ready(t) && |t.members| < t.circle.maxMembers && !HasMember(t.members, a)
    ensures Reaches(hash, s, Joined(t, a)) && Ready(Joined(t, a))
    ensures UnpaidSeat(Joined(t, a).circle, Joined(t, a).members, |t.members|) && Eligible(Joined(t, a).circle, Joined(t, a).members, a)
  {
    InvitationSeats(hash, t, a);
    ReachesOn(hash, s, t, CallInvite(t.circle.organizer, [a], Welcoming), Joined(t, a));
    JoinedIsUnpaid(hash, t, a);
    hide Ready, Outcome, Reachable;
  }

  // ----- random, fixed and auction circles -----

  lemma RandomResolves(hash: Hash, s: Storage, t: Storage) returns (u: Storage)
    requires Reaches(hash, s, t) && Ready(t) && t.circle.payoutType == Random && !Stuck(t)
    ensures Reaches(hash, s, u) && Ready(u) && CanResolve(u) && u.circle.currentRound == t.circle.currentRound
  {
    hide Reaches, Ready, UnpaidSeat, Reachable, Eligible;
    if exists i :: UnpaidSeat(t.circle, t.members, i) {
      u := t;
    } else {
      SeatsFit(hash, s, t);
      var a := Newcomer(t.members);
      NewcomerHasNoSeat(t.members);
      Invites(hash, s, t, a);
      u := Joined(t, a);
    }
  }

  lemma SeatsFit(hash: Hash, s: Storage, t: Storage)
    requires Reaches(hash, s, t)
    ensures |t.members| <= t.circle.maxMembers && Seated(t.members)
  {
    hide Reachable;
    NobodyIsPaidTwice(hash, t);
  }

  /** Newcomers take seats until seat `n` is taken, and the last of them is unpaid. */
  lemma SeatsUpTo(hash: Hash, s: Storage, t: Storage, n: nat) returns (u: Storage)
    requires Reaches(hash, s, t) && Ready(t) && |t.members| <= n < t.circle.maxMembers
    ensures Reaches(hash, s, u) && Ready(u) && u.circle == t.circle.(memberCount := u.circle.memberCount)
    ensures |u.members| == n + 1 && UnpaidSeat(u.circle, u.members, n)
    decreases n - |t.members|
  {
    hide Reaches, Ready, UnpaidSeat, Eligible;
    var a := Newcomer(t.members);
    NewcomerHasNoSeat(t.members);
    Invites(hash, s, t, a);
    if |t.members| == n {
      u := Joined(t, a);
    } else {
      u := SeatsUpTo(hash, s, Joined(t, a), n);
    }
  }

  lemma FixedResolves(hash: Hash, s: Storage, t: Storage) returns (u: Storage)
    requires Reaches(hash, s, t) && Ready(t) && t.circle.payoutType == Fixed && !Stuck(t)
    ensures Reaches(hash, s, u) && Ready(u) && CanResolve(u) && u.circle.currentRound == t.circle.currentRound
  {
    hide Reaches, Ready, UnpaidSeat;
    var n := t.circle.currentRound % t.circle.maxMembers;
    if n < |t.members| {
      u := t;
    } else {
      u := SeatsUpTo(hash, s, t, n);
    }
  }

  /** A ready circle has, or reaches, an eligible member. */
  lemma FindsEligible(hash: Hash, s: Storage, t: Storage) returns (u: Storage, e: Address)
    requires Reaches(hash, s, t) && Ready(t) && t.circle.payoutType == Auction && !Stuck(t)
    ensures Reaches(hash, s, u) && Ready(u) && Eligible(u.circle, u.members, e)
    ensures u.circle == t.circle.(memberCount := u.circle.memberCount)
  {
    hide Reaches, Ready, Reachable;
    if i :| UnpaidSeat(t.circle, t.members, i) {
      u, e := t, t.members[i].address;
    } else {
      SeatsFit(hash, s, t);
      e := Newcomer(t.members);
      NewcomerHasNoSeat(t.members);
      hide Eligible, UnpaidSeat;
      Invites(hash, s, t, e);
      u := Joined(t, e);
    }
  }

  lemma {:induction false} OutsideHasNoBest(bids: seq<Bid>, round: uint32)
    ensures BestBid(BidsOutside(bids, round), round).None?
    ensures !AnyBid(BidsOutside(bids, round), round)
  {
    if bids != [] {
      var n := |bids| - 1;
      OutsideHasNoBest(bids[..n], round);
      var outside := BidsOutside(bids[..n], round);
      if bids[n].round != round {
        assert (outside + [bids[n]])[..|outside|] == outside;
        forall i | 0 <= i < |outside + [bids[n]]|
          ensures (outside + [bids[n]])[i].round != round
        {
          assert i < |outside| ==> (outside + [bids[n]])[i] == outside[i];
        }
      } else {
        assert BidsOutside(bids, round) == outside;
      }
    }
  }

  lemma LoneBidIsBest(bids: seq<Bid>, b: Bid)
    requires BestBid(bids, b.round).None?
    ensures BestBid(bids + [b], b.round) == Some(b)
  {
    assert (bids + [b])[..|bids|] == bids;
  }

  /** Clearing the round's bids and clearing a Dutch round for an eligible member makes them the winner. */
  lemma AuctionResolves(hash: Hash, s: Storage, t: Storage, e: Address) returns (u: Storage)
    requires Reaches(hash, s, t) && Ready(t) && t.circle.payoutType == Auction && Eligible(t.circle, t.members, e)
    ensures Reaches(hash, s, u) && Ready(u) && CanResolve(u) && u.circle == t.circle
  {
    hide Reaches, Reachable, Eligible, BidsOutside, BestBid, AnyBid, WindowClosed, TooYoung, ScanTotal;
    var round := t.circle.currentRound;
    assert CancelRefund(t).Ok? by { RefundIsFound(hash, s, t); }
    var cleared := t.(bids := BidsOutside(t.bids, round));
    assert Outcome(hash, t, CallCancelAuction(t.circle.organizer, true)) == Ok(cleared);
    ReachesOn(hash, s, t, CallCancelAuction(t.circle.organizer, true), cleared);
    OutsideHasNoBest(t.bids, round);
    var entry := DutchAuction(0, 0, 1, t.sequence, 1, false);
    var offered := cleared.(dutch := t.dutch[round := entry]);
    assert Outcome(hash, cleared, CallInitDutch(t.circle.organizer, round, 0, 0, 1, 1)) == Ok(offered);
    ReachesOn(hash, s, cleared, CallInitDutch(t.circle.organizer, round, 0, 0, 1, 1), offered);
    var b := Bid(e, DutchPrice(entry, t.sequence), round, t.now, 0);
    u := offered.(bids := offered.bids + [b], dutch := offered.dutch[round := entry.(resolved := true)]);
    assert Outcome(hash, offered, CallDutchBid(e, round)) == Ok(u);
    ReachesOn(hash, s, offered, CallDutchBid(e, round), u);
    LoneBidIsBest(offered.bids, b);
  }

  lemma RefundIsFound(hash: Hash, s: Storage, t: Storage)
    requires Reaches(hash, s, t)
    ensures CancelRefund(t).Ok?
  {
    hide Reachable, CancelRefund;
    CancellingRefundsOneContribution(hash, t);
  }

  // ----- vote circles -----

  lemma HasVotedSnoc(votes: seq<VoteEntry>, v: VoteEntry, a: Address, round: uint32)
    ensures HasVoted(votes + [v], a, round) <==> HasVoted(votes, a, round) || (v.voter == a && v.round == round)
  {
    VotedStays(votes, votes + [v], a, round);
    assert (votes + [v])[|votes|] == v;
    if i :| 0 <= i < |votes + [v]| && (votes + [v])[i].voter == a && (votes + [v])[i].round == round {
      assert i < |votes| ==> (votes + [v])[i] == votes[i];
    }
  }

  /** A ballot decides its voter and nobody else. */
  lemma {:induction false} UndecidedAfterBallot(members: seq<Member>, votes: seq<VoteEntry>, v: VoteEntry, i: nat, k: nat)
    requires Seated(members) && k < |members| && i <= |members| && members[k].address == v.voter
    requires members[k].status == InGoodStanding && !HasVoted(votes, v.voter, v.round)
    ensures Undecided(members, votes + [v], v.round, i) == Undecided(members, votes, v.round, i) - if k < i then 1 else 0
  {
    if i > 0 {
      UndecidedAfterBallot(members, votes, v, i - 1, k);
      HasVotedSnoc(votes, v, members[i - 1].address, v.round);
      assert members[i - 1].address == v.voter <==> i - 1 == k;
      hide HasVoted;
    }
  }

  lemma {:induction false} SomebodyUndecided(members: seq<Member>, votes: seq<VoteEntry>, round: uint32, i: nat) returns (k: nat)
    requires i <= |members| && Undecided(members, votes, round, i) > 0
    ensures k < i && members[k].status == InGoodStanding && !HasVoted(votes, members[k].address, round)
  {
    hide HasVoted;
    if Undecided(members, votes, round, i - 1) > 0 {
      k := SomebodyUndecided(members, votes, round, i - 1);
    } else {
      k := i - 1;
    }
  }

  lemma {:induction false} NobodyUndecided(members: seq<Member>, votes: seq<VoteEntry>, round: uint32, i: nat)
    requires i <= |members| && Undecided(members, votes, round, i) == 0
    ensures forall j :: 0 <= j < i && members[j].status == InGoodStanding ==> HasVoted(votes, members[j].address, round)
  {
    if i > 0 {
      hide HasVoted;
      NobodyUndecided(members, votes, round, i - 1);
    }
  }

  function Balloted(t: Storage, voter: Address, e: Address): Storage {
    t.(votes := t.votes + [VoteEntry(voter, e, t.circle.currentRound, t.now)])
  }

  lemma BallotIsCast(hash: Hash, t: Storage, k: nat, e: Address)
    requires Seated(t.members) && t.circle.payoutType == Vote && Eligible(t.circle, t.members, e)
    requires k < |t.members| && t.members[k].status == InGoodStanding
    requires !HasVoted(t.votes, t.members[k].address, t.circle.currentRound)
    ensures Outcome(hash, t, CallVote(t.members[k].address, e, t.circle.currentRound)) == Ok(Balloted(t, t.members[k].address, e))
  {
    hide HasVoted, Bit;
    var i :| UnpaidSeat(t.circle, t.members, i) && t.members[i].address == e;
    assert IsActiveMember(t.members, e);
    assert IsActiveMember(t.members, t.members[k].address);
    assert !IsInactiveMember(t.members, t.members[k].address);
    hide IsActiveMember, IsInactiveMember, Seated, Eligible;
  }

  /** A ballot for the candidate keeps their chance: one more now, one fewer to come. */
  lemma BallotKeepsChance(t: Storage, k: nat, e: Address)
    requires Seated(t.members) && k < |t.members| && t.members[k].status == InGoodStanding
    requires !HasVoted(t.votes, t.members[k].address, t.circle.currentRound)
    requires CouldLead(TallyVotes(t.votes, t.circle.currentRound), e, OpenBallots(t))
    ensures var u := Balloted(t, t.members[k].address, e);
            && OpenBallots(u) == OpenBallots(t) - 1
            && CouldLead(TallyVotes(u.votes, t.circle.currentRound), e, OpenBallots(u))
  {
    var round := t.circle.currentRound;
    var v := VoteEntry(t.members[k].address, e, round, t.now);
    UndecidedAfterBallot(t.members, t.votes, v, |t.members|, k);
    TallySnoc(t.votes, v, round);
    hide TallyVotes, Undecided, HasVoted, Seated;
  }

  lemma BallotedIsReady(t: Storage, voter: Address, e: Address)
    requires Ready(t)
    ensures Ready(Balloted(t, voter, e))
  {
    hide ScanTotal;
  }

  lemma LeaderIsUnique(tally: map<Address, nat>, a: Address, b: Address)
    requires Leads(tally, a) && Leads(tally, b)
    ensures a == b
  {
  }

  /** The addresses of the active members among the first `i`. */
  ghost function ActiveAddresses(members: seq<Member>, i: nat): set<Address>
    requires i <= |members|
  {
    set j | 0 <= j < i && members[j].status == InGoodStanding :: members[j].address
  }

  lemma {:induction false} ActiveAddressesCount(members: seq<Member>, i: nat)
    requires Seated(members) && i <= |members|
    ensures |ActiveAddresses(members, i)| == CountActive(members[..i])
  {
    if i == 0 {
      assert ActiveAddresses(members, 0) == {};
    } else {
      ActiveAddressesCount(members, i - 1);
      assert members[..i][..i - 1] == members[..i - 1];
      var m := members[i - 1];
      assert ActiveAddresses(members, i)
             == ActiveAddresses(members, i - 1) + if m.status == InGoodStanding then {m.address} else {};
      assert m.address !in ActiveAddresses(members, i - 1);
    }
  }

  lemma {:induction false} FewerInSubset(a: set<Address>, b: set<Address>)
    requires a <= b
    ensures |a| <= |b|
    decreases |a|
  {
    if x :| x in a {
      FewerInSubset(a - {x}, b - {x});
    }
  }

  /** When every active member has voted there are at least as many ballots as active members. */
  lemma EverybodyVoted(members: seq<Member>, votes: seq<VoteEntry>, round: uint32)
    requires Seated(members) && Undecided(members, votes, round, |members|) == 0
    requires forall i, j :: 0 <= i < j < |votes| && votes[i].round == votes[j].round ==> votes[i].voter != votes[j].voter
    ensures CountVotes(votes, round) >= CountActive(members)
  {
    NobodyUndecided(members, votes, round, |members|);
    ActiveAddressesCount(members, |members|);
    assert members[..|members|] == members;
    BallotsAreVoters(votes, round);
    forall a | a in ActiveAddresses(members, |members|)
      ensures a in Voters(votes, round)
    {
      var j :| 0 <= j < |members| && members[j].status == InGoodStanding && members[j].address == a;
      var i :| 0 <= i < |votes| && votes[i].voter == a && votes[i].round == round;
    }
    FewerInSubset(ActiveAddresses(members, |members|), Voters(votes, round));
  }

  lemma {:induction false} SomebodyActive(members: seq<Member>, k: nat)
    requires k < |members| && members[k].status == InGoodStanding
    ensures CountActive(members) > 0
  {
    if k < |members| - 1 {
      SomebodyActive(members[..|members| - 1], k);
    }
  }

  /** With no ballot left to come, whoever could lead does, and the vote has its quorum. */
  lemma LastBallotElects(hash: Hash, t: Storage, e: Address)
    requires Reachable(hash, t) && t.circle.payoutType == Vote && Eligible(t.circle, t.members, e) && OpenBallots(t) == 0
    requires CouldLead(TallyVotes(t.votes, t.circle.currentRound), e, 0)
    requires |t.members| <= t.circle.maxMembers && Seated(t.members)
    ensures CanResolve(t)
  {
    hide Reachable, Bit, TallyVotes, Undecided, CountVotes, CountActive, Seated;
    var round := t.circle.currentRound;
    var tally := TallyVotes(t.votes, round);
    assert Leads(tally, e);
    LeaderIsUnique(tally, e, Leader(tally).value);
    BidsAndBallotsCountOnce(hash, t);
    EverybodyVoted(t.members, t.votes, round);
    var i :| UnpaidSeat(t.circle, t.members, i) && t.members[i].address == e;
    SomebodyActive(t.members, i);
  }

  /** The undecided members of a full circle vote for the candidate one after another, until they lead. */
  lemma BallotsElect(hash: Hash, s: Storage, t: Storage, e: Address) returns (u: Storage)
    requires Reaches(hash, s, t) && Ready(t) && t.circle.payoutType == Vote && Eligible(t.circle, t.members, e)
    requires |t.members| == t.circle.maxMembers && CouldLead(TallyVotes(t.votes, t.circle.currentRound), e, OpenBallots(t))
    ensures Reaches(hash, s, u) && Ready(u) && CanResolve(u) && u.circle == t.circle
    decreases OpenBallots(t)
  {
    SeatsFit(hash, s, t);
    hide Ready, CouldLead, TallyVotes, Undecided, Eligible, Seated, HasVoted, CanResolve, Reachable;
    if OpenBallots(t) == 0 {
      LastBallotElects(hash, t, e);
      u := t;
    } else {
      var k := SomebodyUndecided(t.members, t.votes, t.circle.currentRound, |t.members|);
      var voter := t.members[k].address;
      BallotIsCast(hash, t, k, e);
      ReachesOn(hash, s, t, CallVote(voter, e, t.circle.currentRound), Balloted(t, voter, e));
      BallotKeepsChance(t, k, e);
      BallotedIsReady(t, voter, e);
      u := BallotsElect(hash, s, Balloted(t, voter, e), e);
    }
  }

  /** A newcomer brings the ballot their free seat stood for. */
  lemma NewcomerKeepsChance(hash: Hash, t: Storage, a: Address)
    requires Reachable(hash, t) && |t.members| < t.circle.maxMembers && !HasMember(t.members, a)
    ensures OpenBallots(Joined(t, a)) == OpenBallots(t)
  {
    var u, round := Joined(t, a), t.circle.currentRound;
    assert u.members[..|t.members|] == t.members;
    UndecidedOfPrefix(t.members, u.members, t.votes, round, |t.members|);
    assert !HasVoted(t.votes, a, round) by { OutsidersHaveNotVoted(hash, t, a, round); }
    hide Reachable, HasVoted, HasMember;
  }

  lemma OutsidersHaveNotVoted(hash: Hash, t: Storage, a: Address, round: uint32)
    requires Reachable(hash, t) && !HasMember(t.members, a)
    ensures !HasVoted(t.votes, a, round)
  {
    hide Reachable;
    BidsAndBallotsCountOnce(hash, t);
  }

  lemma JoinedKeepsEligible(t: Storage, a: Address, e: Address)
    requires Eligible(t.circle, t.members, e) && |t.members| < U32_MAX
    ensures Eligible(Joined(t, a).circle, Joined(t, a).members, e)
  {
    hide Bit;
    var i :| UnpaidSeat(t.circle, t.members, i) && t.members[i].address == e;
    assert UnpaidSeat(Joined(t, a).circle, Joined(t, a).members, i);
  }

  /** Newcomers take every free seat; the candidate stays eligible and keeps their chance. */
  lemma FillsSeats(hash: Hash, s: Storage, t: Storage, e: Address) returns (u: Storage)
    requires Reaches(hash, s, t) && Ready(t) && t.circle.payoutType == Vote && Eligible(t.circle, t.members, e)
    requires |t.members| <= t.circle.maxMembers && CouldLead(TallyVotes(t.votes, t.circle.currentRound), e, OpenBallots(t))
    ensures Reaches(hash, s, u) && Ready(u) && Eligible(u.circle, u.members, e) && |u.members| == u.circle.maxMembers
    ensures u.circle == t.circle.(memberCount := u.circle.memberCount)
    ensures CouldLead(TallyVotes(u.votes, u.circle.currentRound), e, OpenBallots(u))
    decreases t.circle.maxMembers - |t.members|
  {
    hide Ready, CouldLead, TallyVotes, Undecided, Eligible, OpenBallots, Reachable;
    if |t.members| == t.circle.maxMembers {
      u := t;
    } else {
      var a := Newcomer(t.members);
      NewcomerHasNoSeat(t.members);
      Invites(hash, s, t, a);
      NewcomerKeepsChance(hash, t, a);
      JoinedKeepsEligible(t, a, e);
      u := FillsSeats(hash, s, Joined(t, a), e);
    }
  }

  lemma VoteResolves(hash: Hash, s: Storage, t: Storage, e: Address) returns (u: Storage)
    requires Reaches(hash, s, t) && Ready(t) && t.circle.payoutType == Vote && Electable(t, e)
    ensures Reaches(hash, s, u) && Ready(u) && CanResolve(u) && u.circle.currentRound == t.circle.currentRound
  {
    hide Ready, CouldLead, TallyVotes, Undecided, Eligible, OpenBallots, CanResolve, Reachable;
    SeatsFit(hash, s, t);
    var seated := t;
    if !Eligible(t.circle, t.members, e) {
      Invites(hash, s, t, e);
      NewcomerKeepsChance(hash, t, e);
      seated := Joined(t, e);
    }
    var full := FillsSeats(hash, s, seated, e);
    u := BallotsElect(hash, s, full, e);
  }

  lemma AnyTypeResolves(hash: Hash, s: Storage, t: Storage) returns (u: Storage)
    requires Reaches(hash, s, t) && Ready(t) && Settleable(t)
    ensures Reaches(hash, s, u) && Ready(u) && CanResolve(u) && u.circle.currentRound == t.circle.currentRound
  {
    hide Ready, Reaches, Electable, Stuck, CanResolve, Eligible;
    match t.circle.payoutType
    case Random => u := RandomResolves(hash, s, t);
    case Fixed => u := FixedResolves(hash, s, t);
    case Auction =>
      var v, e := FindsEligible(hash, s, t);
      u := AuctionResolves(hash, s, v, e);
    case Vote =>
      var e :| Electable(t, e);
      u := VoteResolves(hash, s, t, e);
  }

  // ----- the theorem -----

  /** These calls settle the current round, and perhaps later ones. */
  ghost predicate SettlesBy(hash: Hash, s: Storage, calls: seq<Call>) {
    Run(hash, s, calls).circle.currentRound > s.circle.currentRound
  }

  lemma SettleableRoundsSettle(hash: Hash, s: Storage)
    requires Reachable(hash, s) && Alive(s) && Settleable(s) && CanBecomeDue(s.circle) && Affordable(s)
    ensures exists calls :: SettlesBy(hash, s, calls)
  {
    hide Alive, Settleable, CanBecomeDue, Affordable, Ready, CanResolve, Outcome;
    var t := GetsReady(hash, s);
    var u := AnyTypeResolves(hash, s, t);
    ReadySettles(hash, s, u);
    var v := Outcome(hash, u, CallTrigger(u.admin, u.circle.currentRound, true, true)).value;
    hide Reachable;
    var calls :| v == Run(hash, s, calls);
    assert SettlesBy(hash, s, calls);
  }

  /** Main result on the life of a round: with a window that closes and a pool that leaves room for the product
      of any fee, the current round of a reachable circle is settled by some run exactly when the circle is alive
      and there is somebody the round can still go to. */
  lemma RoundSettlesBySomeRunExactlyWhen(hash: Hash, s: Storage)
    requires Reachable(hash, s) && CanBecomeDue(s.circle) && Affordable(s)
    ensures (exists calls :: SettlesBy(hash, s, calls)) <==> Alive(s) && Settleable(s)
  {
    hide Alive, Settleable, CanBecomeDue, Affordable, Run, Reachable;
    if calls :| SettlesBy(hash, s, calls) {
      if !Alive(s) {
        DeadCirclesNeverSettle(hash, s, calls);
      } else if !Settleable(s) {
        UnsettleableRoundsNeverSettle(hash, s, calls);
      }
    } else if Alive(s) && Settleable(s) {
      SettleableRoundsSettle(hash, s);
    }
  }
}
