/** The circle's loops over its stored lists, each proved against the function that says what it computes. */
module CircleLoops {
  import opened Common
  import opened CircleTypes
  import opened Payout
  import opened CircleOps

  // ----- scans of the log and the member list -----

  method CollectContributors(log: seq<Contribution>, round: uint32) returns (list: seq<Address>)
    ensures list == ScanContributors(log, round)
  {
    list := [];
    for i := 0 to |log|
      invariant list == ScanContributors(log[..i], round)
    {
      assert log[..i + 1][..i] == log[..i];
      if log[i].round == round {
        list := list + [log[i].member];
      }
    }
    assert log[..|log|] == log;
  }

  method AddUpRound(log: seq<Contribution>, round: uint32) returns (total: int128)
    ensures total == ScanTotal(log, round)
  {
    total := 0;
    for i := 0 to |log|
      invariant total == ScanTotal(log[..i], round)
    {
      assert log[..i + 1][..i] == log[..i];
      if log[i].round == round {
        total := SatAddI128(total, log[i].amount);
      }
    }
    assert log[..|log|] == log;
  }

  method CountAwaiting(members: seq<Member>, contributors: seq<Address>) returns (awaiting: nat)
    ensures awaiting == Awaiting(members, contributors)
  {
    awaiting := 0;
    for i := 0 to |members|
      invariant awaiting == Awaiting(members[..i], contributors)
    {
      assert members[..i + 1][..i] == members[..i];
      if members[i].status == InGoodStanding && members[i].address !in contributors {
        awaiting := awaiting + 1;
      }
    }
    assert members[..|members|] == members;
  }

  method IsLate(log: seq<Contribution>, member: Address, round: uint32) returns (found: bool)
    ensures found <==> WasLate(log, member, round)
  {
    found := false;
    for i := 0 to |log|
      invariant found <==> exists j :: 0 <= j < i && log[j].member == member && log[j].round == round && !log[j].onTime
    {
      if log[i].member == member && log[i].round == round && !log[i].onTime {
        found := true;
      }
    }
  }

  // ----- invitations -----

  lemma {:induction false} InvitationStops(c: Circle, members: seq<Member>, invitees: seq<Address>, score: Address -> uint32,
                                           now: uint64, i: nat, n: nat)
    requires i <= n <= |invitees| && InviteUpTo(c, members, invitees, score, now, i).Err?
    ensures InviteUpTo(c, members, invitees, score, now, n) == InviteUpTo(c, members, invitees, score, now, i)
    decreases n
  {
    if i < n {
      InvitationStops(c, members, invitees, score, now, i, n - 1);
    }
  }

  method InviteAll(c: Circle, members: seq<Member>, invitees: seq<Address>, score: Address -> uint32, now: uint64)
    returns (r: Result<seq<Member>, CircleError>)
    ensures r == InviteUpTo(c, members, invitees, score, now, |invitees|)
  {
    var list := members;
    for i := 0 to |invitees|
      invariant InviteUpTo(c, members, invitees, score, now, i) == Ok(list)
    {
      var a := invitees[i];
      var seat := FindMember(list, a);
      if score(a) < c.minScore || seat.Some? || |list| >= c.maxMembers {
        InvitationStops(c, members, invitees, score, now, i + 1, |invitees|);
        return Err(if score(a) < c.minScore then InsufficientMoiScore else if seat.Some? then AlreadyMember else CircleFull);
      }
      list := list + [NewMember(a, |list|, now)];
    }
    return Ok(list);
  }

  method MarkAll(cache: StatusCache, addresses: seq<Address>, status: MemberStatus) returns (marked: StatusCache)
    ensures marked == MarkStatus(cache, addresses, status)
  {
    marked := cache;
    for i := 0 to |addresses|
      invariant marked == MarkStatus(cache, addresses[..i], status)
    {
      assert addresses[..i + 1][..i] == addresses[..i];
      marked := marked[addresses[i] := status];
    }
    assert addresses[..|addresses|] == addresses;
  }

  // ----- the contribution window -----

  method CheckTimeliness(c: Circle, now: uint64) returns (r: Result<bool, CircleError>)
    ensures r == Timeliness(c, now)
  {
    if c.deadlineSeconds > 0 {
      if c.startedAt + c.deadlineSeconds > U64_MAX {
        return Err(InvalidAmount);
      }
      var deadline := c.startedAt + c.deadlineSeconds;
      if now > deadline {
        if c.graceSeconds == 0 {
          return Err(PaymentDeadlinePassed);
        } else if deadline + c.graceSeconds > U64_MAX {
          return Err(InvalidAmount);
        }
        return if now <= deadline + c.graceSeconds then Ok(false) else Err(PaymentDeadlinePassed);
      }
    }
    return Ok(true);
  }

  // ----- fees -----

  method RecordFee(ledgers: FeeLedgers, round: uint32, payoutFee: int128, lateFee: int128) returns (r: Result<FeeLedgers, CircleError>)
    ensures r == RecordRoundFee(ledgers, round, payoutFee, lateFee)
  {
    var ledger := if round in ledgers then ledgers[round] else FeeLedger(0, 0, 0);
    :- Need(FitsI128(ledger.payoutFee + payoutFee), InvalidAmount);
    ledger := ledger.(payoutFee := ledger.payoutFee + payoutFee);
    :- Need(FitsI128(ledger.latePenaltyFee + lateFee), InvalidAmount);
    ledger := ledger.(latePenaltyFee := ledger.latePenaltyFee + lateFee);
    :- Need(FitsI128(ledger.payoutFee + ledger.latePenaltyFee), InvalidAmount);
    return Ok(ledgers[round := ledger.(totalFee := ledger.payoutFee + ledger.latePenaltyFee)]);
  }

  // ----- the deadline sweep -----

  method SweepMembers(start: Sweep, maxStrikes: uint32, round: uint32, contributors: seq<Address>) returns (w: Sweep)
    ensures w == SweepUpTo(start, maxStrikes, round, contributors, |start.members|)
  {
    var members: seq<Member>, cache: StatusCache, book: StrikeBook := start.members, start.memberStatus, start.roundStrikes;
    for i := 0 to |start.members|
      invariant Sweep(members, cache, book) == SweepUpTo(start, maxStrikes, round, contributors, i)
    {
      var m := members[i];
      if m.status == InGoodStanding && m.address !in contributors {
        m := m.(strikes := Min(m.strikes + 1, U32_MAX));
        if m.strikes >= maxStrikes {
          m := m.(status := Defaulted);
          cache := cache[m.address := Defaulted];
        }
        book := RecordStrike(book, round, m.address);
        members := members[i := m];
      }
    }
    w := Sweep(members, cache, book);
  }

  // ----- the distribution -----

  method WeighRound(log: seq<Contribution>, round: uint32, now: uint64) returns (weights: Weights)
    ensures weights == Weigh(log, round, now)
  {
    var of: map<Address, uint128>, total: uint128 := map[], 0;
    for i := 0 to |log|
      invariant Weights(of, total) == Weigh(log[..i], round, now)
    {
      assert log[..i + 1][..i] == log[..i];
      var c := log[i];
      if c.round == round {
        var w := WeightOf(c, now);
        total := SatAddU128(total, w);
        of := of[c.member := SatAddU128(if c.member in of then of[c.member] else 0, w)];
      }
    }
    assert log[..|log|] == log;
    weights := Weights(of, total);
  }

  lemma {:induction false} CreditStops(members: seq<Member>, a: Address, amount: int128, i: nat, n: nat)
    requires i <= n <= |members| && CreditUpTo(members, a, amount, i).Err?
    ensures CreditUpTo(members, a, amount, n) == CreditUpTo(members, a, amount, i)
    decreases n
  {
    if i < n {
      CreditStops(members, a, amount, i, n - 1);
    }
  }

  method CreditMembers(members: seq<Member>, a: Address, amount: int128) returns (r: Result<seq<Member>, CircleError>)
    ensures r == Credit(members, a, amount)
  {
    var credited := members;
    for i := 0 to |members|
      invariant CreditUpTo(members, a, amount, i) == Ok(credited)
    {
      if credited[i].address == a {
        if !FitsI128(credited[i].totalReceived + amount) {
          CreditStops(members, a, amount, i + 1, |members|);
          return Err(InvalidAmount);
        }
        credited := credited[i := credited[i].(totalReceived := credited[i].totalReceived + amount)];
      }
    }
    return Ok(credited);
  }

  method PayMember(d: Dist, a: Address, share: int128, info: RoundInfo) returns (r: Result<Dist, CircleError>)
    ensures r == PayShare(d, a, share, info)
  {
    if !FitsI128(d.distributed + share) {
      return Err(InvalidAmount);
    }
    var credited := CreditMembers(d.members, a, share);
    if credited.Err? {
      return Err(credited.error);
    }
    var record := PayoutRecord(a, info.round, share, 0, info.payoutType, info.now);
    return Ok(Dist(credited.value, d.distributed + share, d.payouts + [record]));
  }

  lemma {:induction false} DistributionStops(d: Dist, weights: Weights, net: int128, info: RoundInfo, i: nat, n: nat)
    requires i <= n <= |d.members| && net > 0 && DistributeUpTo(d, weights, net, info, i).Err?
    ensures DistributeUpTo(d, weights, net, info, n) == DistributeUpTo(d, weights, net, info, i)
    decreases n
  {
    if i < n {
      hide PayShare, Share;
      DistributionStops(d, weights, net, info, i, n - 1);
    }
  }

  method DistributeShares(start: Dist, weights: Weights, net: int128, info: RoundInfo) returns (r: Result<Dist, CircleError>)
    requires net > 0
    ensures r == DistributeUpTo(start, weights, net, info, |start.members|)
  {
    hide PayShare, Share;
    var d := start;
    for i := 0 to |start.members|
      invariant DistributeUpTo(start, weights, net, info, i) == Ok(d)
      invariant |d.members| == |start.members|
    {
      var a := d.members[i].address;
      if a in weights.of && weights.total > 0 {
        var share := Share(net, weights.of[a], weights.total, d.distributed);
        if share > 0 {
          var paid := PayMember(d, a, share, info);
          if paid.Err? {
            DistributionStops(start, weights, net, info, i + 1, |start.members|);
            return paid;
          }
          PaidKeepsLength(d, a, share, info);
          d := paid.value;
        }
      }
    }
    return Ok(d);
  }

  lemma PaidKeepsLength(d: Dist, a: Address, share: int128, info: RoundInfo)
    requires PayShare(d, a, share, info).Ok?
    ensures |PayShare(d, a, share, info).value.members| == |d.members|
  {
  }

  // ----- bids -----

  method BidExists(bids: seq<Bid>, bidder: Address, round: uint32) returns (found: bool)
    ensures found <==> HasBid(bids, bidder, round)
  {
    for i := 0 to |bids|
      invariant forall j :: 0 <= j < i ==> !(bids[j].bidder == bidder && bids[j].round == round)
    {
      if bids[i].bidder == bidder && bids[i].round == round {
        return true;
      }
    }
    return false;
  }

  method RoundHasBid(bids: seq<Bid>, round: uint32) returns (found: bool)
    ensures found <==> AnyBid(bids, round)
  {
    for i := 0 to |bids|
      invariant forall j :: 0 <= j < i ==> bids[j].round != round
    {
      if bids[i].round == round {
        return true;
      }
    }
    return false;
  }

  /** Refunds go out as the loop reaches them; `refunded` lists them. */
  method DrainLosers(bids: seq<Bid>, round: uint32, winner: Address, cap: nat) returns (d: Drain)
    ensures d == DrainUpTo(bids, round, winner, cap, |bids|)
  {
    var kept: seq<Bid>, refunded: seq<Bid>, remaining: nat := [], [], 0;
    for i := 0 to |bids|
      invariant Drain(kept, refunded, remaining) == DrainUpTo(bids, round, winner, cap, i)
    {
      var isLoser := bids[i].round == round && bids[i].bidder != winner;
      if isLoser && |refunded| < cap {
        refunded := refunded + [bids[i]];
      } else {
        if isLoser {
          remaining := remaining + 1;
        }
        kept := kept + [bids[i]];
      }
    }
    d := Drain(kept, refunded, remaining);
  }

  method SumContributions(log: seq<Contribution>, member: Address, round: uint32) returns (r: Result<int128, CircleError>)
    ensures r == ContributedBy(log, member, round)
  {
    var total: int128 := 0;
    for i := 0 to |log|
      invariant ContributedBy(log[..i], member, round) == Ok(total)
    {
      assert log[..i + 1][..i] == log[..i];
      if log[i].member == member && log[i].round == round {
        if !FitsI128(total + log[i].amount) {
          SummingStops(log, member, round, i + 1);
          return Err(InvalidAmount);
        }
        total := total + log[i].amount;
      }
    }
    assert log[..|log|] == log;
    return Ok(total);
  }

  lemma {:induction false} SummingStops(log: seq<Contribution>, member: Address, round: uint32, i: nat)
    requires i <= |log| && ContributedBy(log[..i], member, round).Err?
    ensures ContributedBy(log, member, round) == ContributedBy(log[..i], member, round)
    decreases |log|
  {
    if i == |log| {
      assert log[..i] == log;
    } else {
      var n := |log| - 1;
      assert log[..n][..i] == log[..i];
      SummingStops(log[..n], member, round, i);
    }
  }

  method KeepOutside(bids: seq<Bid>, round: uint32) returns (kept: seq<Bid>)
    ensures kept == BidsOutside(bids, round)
  {
    kept := [];
    for i := 0 to |bids|
      invariant kept == BidsOutside(bids[..i], round)
    {
      assert bids[..i + 1][..i] == bids[..i];
      if bids[i].round != round {
        kept := kept + [bids[i]];
      }
    }
    assert bids[..|bids|] == bids;
  }

  // ----- votes and standings -----

  /** One pass that looks for both addresses; an inactive voter ends it. */
  method CheckBallot(members: seq<Member>, voter: Address, voteFor: Address) returns (r: Result<(), CircleError>)
    ensures r == if IsInactiveMember(members, voter) then Err(InvalidMemberStatus)
                 else if !IsActiveMember(members, voter) || !IsActiveMember(members, voteFor) then Err(NotMember) else Ok(())
  {
    var isMember, isCandidate := false, false;
    for i := 0 to |members|
      invariant forall j :: 0 <= j < i && members[j].address == voter ==> members[j].status == InGoodStanding
      invariant isMember <==> exists j :: 0 <= j < i && members[j].address == voter && members[j].status == InGoodStanding
      invariant isCandidate <==> exists j :: 0 <= j < i && members[j].address == voteFor && members[j].status == InGoodStanding
    {
      if members[i].address == voter {
        if members[i].status != InGoodStanding {
          return Err(InvalidMemberStatus);
        }
        isMember := true;
      }
      if members[i].address == voteFor && members[i].status == InGoodStanding {
        isCandidate := true;
      }
    }
    return if !isMember || !isCandidate then Err(NotMember) else Ok(());
  }

  method VoteExists(votes: seq<VoteEntry>, voter: Address, round: uint32) returns (found: bool)
    ensures found <==> HasVoted(votes, voter, round)
  {
    for i := 0 to |votes|
      invariant forall j :: 0 <= j < i ==> !(votes[j].voter == voter && votes[j].round == round)
    {
      if votes[i].voter == voter && votes[i].round == round {
        return true;
      }
    }
    return false;
  }

  /** Marks every entry of this member as departed, unless one is inactive already. */
  method DepartMember(members: seq<Member>, member: Address, now: uint64) returns (r: Result<seq<Member>, CircleError>)
    ensures r == if IsInactiveMember(members, member) then Err(InvalidMemberStatus)
                 else Ok(WithDeparted(members, member, now))
  {
    var departed := members;
    for i := 0 to |members|
      invariant |departed| == |members|
      invariant forall j :: 0 <= j < i && members[j].address == member ==> members[j].status == InGoodStanding
      invariant forall j :: 0 <= j < |members| ==>
                  departed[j] == if j < i && members[j].address == member then Departed(members[j], now) else members[j]
    {
      if members[i].address == member {
        if members[i].status != InGoodStanding {
          return Err(InvalidMemberStatus);
        }
        departed := departed[i := departed[i].(status := Exited, exitedAt := now)];
      }
    }
    assert departed == WithDeparted(members, member, now);
    return Ok(departed);
  }

  method ClearContributions(members: seq<Member>) returns (cleared: seq<Member>)
    ensures cleared == Cleared(members)
  {
    cleared := members;
    for i := 0 to |members|
      invariant |cleared| == |members|
      invariant forall j :: 0 <= j < |members| ==> cleared[j] == if j < i then Cleared(members)[j] else members[j]
    {
      if cleared[i].totalContributions > 0 {
        cleared := cleared[i := cleared[i].(totalContributions := 0)];
      }
    }
  }
}
