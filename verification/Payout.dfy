/** Who receives a round (packages/circle/src/payout.rs): the four resolvers as loops, each proved
    against the function that says what it picks. */
module Payout {
  import opened Common
  import opened Bitmap
  import opened Vrf
  import opened CircleTypes

  /** The first member at or after list position `i` with this address. */
  function IndexOfMember(members: seq<Member>, a: Address, i: nat): (r: Option<nat>)
    requires i <= |members|
    ensures r.Some? ==> i <= r.value < |members| && members[r.value].address == a
    decreases |members| - i
  {
    if i == |members| then None
    else if members[i].address == a then Some(i)
    else IndexOfMember(members, a, i + 1)
  }

  predicate Unpaid(bitmap: nat, m: Member) {
    m.status == InGoodStanding && !Bit(bitmap, m.position)
  }

  /** The map from position to address that the resolvers build over active members. */
  function ActivePositions(members: seq<Member>): map<uint32, Address> {
    if members == [] then map[]
    else
      var m := members[|members| - 1];
      var earlier := ActivePositions(members[..|members| - 1]);
      if m.status == InGoodStanding then earlier[m.position := m.address] else earlier
  }

  /** The occupant of the first position in `order` that is unpaid and active. */
  function FirstFree(order: seq<uint32>, bitmap: nat, active: map<uint32, Address>): Option<Address> {
    if order == [] then None
    else if !Bit(bitmap, order[0]) && order[0] in active then Some(active[order[0]])
    else FirstFree(order[1..], bitmap, active)
  }

  /** The occupant of the first unpaid and active position from `pos` up to `n`. */
  function FirstFreeFrom(pos: uint32, n: uint32, bitmap: nat, active: map<uint32, Address>): Option<Address>
    decreases n - pos
  {
    if pos >= n then None
    else if !Bit(bitmap, pos) && pos in active then Some(active[pos])
    else FirstFreeFrom(pos + 1, n, bitmap, active)
  }

  function FirstUnpaidMember(members: seq<Member>, bitmap: nat, i: nat): Option<Address>
    requires i <= |members|
    decreases |members| - i
  {
    if i == |members| then None
    else if Unpaid(bitmap, members[i]) then Some(members[i].address)
    else FirstUnpaidMember(members, bitmap, i + 1)
  }

  /** The three passes over a shuffled order: the order itself, then all positions, then the members. */
  function PickFromOrder(circle: Circle, members: seq<Member>, order: seq<uint32>): Result<Address, CircleError> {
    var active := ActivePositions(members);
    var first := FirstFree(order, circle.bitmap, active);
    if first.Some? then Ok(first.value) else
    var second := FirstFreeFrom(0, circle.maxMembers, circle.bitmap, active);
    if second.Some? then Ok(second.value) else
    var third := FirstUnpaidMember(members, circle.bitmap, 0);
    if third.Some? then Ok(third.value) else Err(PayoutAlreadyExecuted)
  }

  /** `round * 1000` in unchecked u32 arithmetic. */
  function NonceBase(round: uint32): uint32 {
    round * 1000 % (U32_MAX + 1)
  }

  datatype Pick = Pick(vrf: VrfState, recipient: Address)

  function ResolveRandom(hash: Hash, circle: Circle, members: seq<Member>, vrf: VrfState, round: uint32): Result<Pick, CircleError> {
    match ShufflePositions(hash, vrf, circle.maxMembers, NonceBase(round))
    case Err(_) => Err(InvalidAmount)
    case Ok(draw) =>
      var recipient :- PickFromOrder(circle, members, draw.positions);
      Ok(Pick(draw.state, recipient))
  }

  function ResolveFixed(circle: Circle, members: seq<Member>, round: uint32): Result<Address, CircleError> {
    var pos := round % circle.maxMembers;
    if Bit(circle.bitmap, pos) then Err(PayoutAlreadyExecuted) else
    var active := ActivePositions(members);
    if pos in active then Ok(active[pos]) else Err(NotMember)
  }

  /** The named member, when still unpaid and active. */
  function EligibleMember(circle: Circle, members: seq<Member>, a: Address): Result<Address, CircleError> {
    var i := IndexOfMember(members, a, 0);
    if i.None? then Err(NotMember) else
    if Bit(circle.bitmap, members[i.value].position) then Err(PayoutAlreadyExecuted) else
    if members[i.value].status != InGoodStanding then Err(InvalidMemberStatus) else
    Ok(a)
  }

  /** The highest discount bid on the round; a later bid wins a tie. */
  function BestBid(bids: seq<Bid>, round: uint32): Option<Bid> {
    if bids == [] then None
    else
      var b := bids[|bids| - 1];
      var best := BestBid(bids[..|bids| - 1], round);
      if b.round == round && (best.Some? ==> b.discountBips >= best.value.discountBips) then Some(b) else best
  }

  function ResolveAuction(circle: Circle, members: seq<Member>, bids: seq<Bid>, round: uint32): Result<Address, CircleError> {
    var best := BestBid(bids, round);
    if best.None? then Err(VoteQuorumNotMet) else
    EligibleMember(circle, members, best.value.bidder)
  }

  function CountActive(members: seq<Member>): nat {
    if members == [] then 0
    else CountActive(members[..|members| - 1]) + if members[|members| - 1].status == InGoodStanding then 1 else 0
  }

  function CountVotes(votes: seq<VoteEntry>, round: uint32): nat {
    if votes == [] then 0
    else CountVotes(votes[..|votes| - 1], round) + if votes[|votes| - 1].round == round then 1 else 0
  }

  function TallyVotes(votes: seq<VoteEntry>, round: uint32): map<Address, nat> {
    if votes == [] then map[]
    else
      var v := votes[|votes| - 1];
      var tally := TallyVotes(votes[..|votes| - 1], round);
      if v.round == round then tally[v.voteFor := Of(tally, v.voteFor) + 1] else tally
  }

  function Of(tally: map<Address, nat>, a: Address): nat {
    if a in tally then tally[a] else 0
  }

  /** No candidate has more votes, and none earlier in the host's map order has as many. */
  ghost predicate Leads(tally: map<Address, nat>, a: Address) {
    a in tally && forall b :: b in tally ==> tally[b] < tally[a] || (tally[b] == tally[a] && a <= b)
  }

  lemma {:induction false} SomeoneLeads(tally: map<Address, nat>)
    requires tally != map[]
    ensures exists a :: Leads(tally, a)
    decreases |tally|
  {
    var x :| x in tally;
    var rest := tally - {x};
    if rest == map[] {
      assert forall b :: b in tally ==> b == x || b in rest;
      assert Leads(tally, x);
    } else {
      assert |rest| < |tally| by { assert rest.Keys == tally.Keys - {x}; }
      SomeoneLeads(rest);
      var a :| Leads(rest, a);
      if tally[x] < tally[a] || (tally[x] == tally[a] && a <= x) {
        assert forall b :: b in tally ==> b == x || b in rest;
        assert Leads(tally, a);
      } else {
        assert forall b :: b in tally ==> b == x || b in rest;
        assert Leads(tally, x);
      }
    }
  }

  ghost function Leader(tally: map<Address, nat>): (r: Option<Address>)
    ensures r.Some? ==> Leads(tally, r.value)
    ensures r.None? <==> tally == map[]
  {
    if tally == map[] then None
    else
      SomeoneLeads(tally);
      var a :| Leads(tally, a);
      Some(a)
  }

  ghost function ResolveVote(circle: Circle, members: seq<Member>, votes: seq<VoteEntry>, round: uint32): Result<Address, CircleError> {
    if CountVotes(votes, round) < CountActive(members) / 2 + 1 then Err(VoteQuorumNotMet) else
    var leader := Leader(TallyVotes(votes, round));
    if leader.None? then Err(VoteQuorumNotMet) else
    EligibleMember(circle, members, leader.value)
  }

  // ----- the loops -----

  method FindMember(members: seq<Member>, a: Address) returns (r: Option<nat>)
    ensures r == IndexOfMember(members, a, 0)
  {
    var i := 0;
    while i < |members| && members[i].address != a
      invariant i <= |members|
      invariant IndexOfMember(members, a, 0) == IndexOfMember(members, a, i)
    {
      i := i + 1;
    }
    return if i < |members| then Some(i) else None;
  }

  method MapActivePositions(members: seq<Member>) returns (active: map<uint32, Address>)
    ensures active == ActivePositions(members)
  {
    active := map[];
    for i := 0 to |members|
      invariant active == ActivePositions(members[..i])
    {
      assert members[..i + 1][..i] == members[..i];
      if members[i].status == InGoodStanding {
        active := active[members[i].position := members[i].address];
      }
    }
    assert members[..|members|] == members;
  }

  method PickByOrder(circle: Circle, members: seq<Member>, order: seq<uint32>) returns (r: Result<Address, CircleError>)
    ensures r == PickFromOrder(circle, members, order)
  {
    var active := MapActivePositions(members);
    var i := 0;
    while i < |order|
      invariant i <= |order|
      invariant FirstFree(order, circle.bitmap, active) == FirstFree(order[i..], circle.bitmap, active)
    {
      assert order[i..][1..] == order[i + 1..];
      if !Bit(circle.bitmap, order[i]) && order[i] in active {
        return Ok(active[order[i]]);
      }
      i := i + 1;
    }
    var pos: uint32 := 0;
    while pos < circle.maxMembers
      invariant pos <= circle.maxMembers
      invariant FirstFreeFrom(0, circle.maxMembers, circle.bitmap, active) == FirstFreeFrom(pos, circle.maxMembers, circle.bitmap, active)
    {
      if !Bit(circle.bitmap, pos) && pos in active {
        return Ok(active[pos]);
      }
      pos := pos + 1;
    }
    i := 0;
    while i < |members|
      invariant i <= |members|
      invariant FirstUnpaidMember(members, circle.bitmap, 0) == FirstUnpaidMember(members, circle.bitmap, i)
    {
      if members[i].status == InGoodStanding && !Bit(circle.bitmap, members[i].position) {
        return Ok(members[i].address);
      }
      i := i + 1;
    }
    return Err(PayoutAlreadyExecuted);
  }

  method PickFixed(circle: Circle, members: seq<Member>, round: uint32) returns (r: Result<Address, CircleError>)
    ensures r == ResolveFixed(circle, members, round)
  {
    var pos := round % circle.maxMembers;
    if Bit(circle.bitmap, pos) {
      return Err(PayoutAlreadyExecuted);
    }
    var active := MapActivePositions(members);
    return if pos in active then Ok(active[pos]) else Err(NotMember);
  }

  method CheckEligible(circle: Circle, members: seq<Member>, a: Address) returns (r: Result<Address, CircleError>)
    ensures r == EligibleMember(circle, members, a)
  {
    var i := FindMember(members, a);
    if i.None? {
      return Err(NotMember);
    } else if Bit(circle.bitmap, members[i.value].position) {
      return Err(PayoutAlreadyExecuted);
    } else if members[i.value].status != InGoodStanding {
      return Err(InvalidMemberStatus);
    }
    return Ok(a);
  }

  /** The loop that keeps the last highest bid, as the auction resolver and its cancellation run it. */
  method FindBestBid(bids: seq<Bid>, round: uint32) returns (winner: Option<Bid>)
    ensures winner == BestBid(bids, round)
  {
    var maxBips: uint32 := 0;
    winner := None;
    for i := 0 to |bids|
      invariant winner == BestBid(bids[..i], round)
      invariant maxBips == if winner.Some? then winner.value.discountBips else 0
    {
      assert bids[..i + 1][..i] == bids[..i];
      if bids[i].round == round && bids[i].discountBips >= maxBips {
        maxBips, winner := bids[i].discountBips, Some(bids[i]);
      }
    }
    assert bids[..|bids|] == bids;
  }

  method PickAuction(circle: Circle, members: seq<Member>, bids: seq<Bid>, round: uint32) returns (r: Result<Address, CircleError>)
    ensures r == ResolveAuction(circle, members, bids, round)
  {
    var winner := FindBestBid(bids, round);
    if winner.None? {
      return Err(VoteQuorumNotMet);
    }
    r := CheckEligible(circle, members, winner.value.bidder);
  }

  method CountActiveMembers(members: seq<Member>) returns (c: nat)
    ensures c == CountActive(members)
  {
    c := 0;
    for i := 0 to |members|
      invariant c == CountActive(members[..i])
    {
      assert members[..i + 1][..i] == members[..i];
      if members[i].status == InGoodStanding {
        c := c + 1;
      }
    }
    assert members[..|members|] == members;
  }

  lemma LeastElement(s: set<Address>) returns (m: Address)
    requires s != {}
    ensures m in s && forall y :: y in s ==> m <= y
    decreases |s|
  {
    m :| m in s;
    if s != {m} {
      var rest := LeastElement(s - {m});
      assert forall y :: y in s ==> y == m || y in s - {m};
      m := if m <= rest then m else rest;
    }
  }

  /** The loop over the tally in the host map's ascending key order, keeping the first best count. */
  method FindLeader(tally: map<Address, nat>) returns (best: Option<Address>)
    requires forall a :: a in tally ==> tally[a] > 0
    ensures best == Leader(tally)
  {
    best := None;
    var bestCount := 0;
    var left := tally.Keys;
    while left != {}
      invariant left <= tally.Keys
      invariant forall a, b :: a in left && b in tally && b !in left ==> b < a
      invariant best.None? ==> bestCount == 0 && left == tally.Keys
      invariant best.Some? ==> best.value in tally && best.value !in left && bestCount == tally[best.value]
      invariant best.Some? ==> forall b :: b in tally && b !in left ==> tally[b] < bestCount || (tally[b] == bestCount && best.value <= b)
      decreases left
    {
      ghost var least := LeastElement(left);
      var a :| a in left && forall x :: x in left ==> a <= x;
      left := left - {a};
      if tally[a] > bestCount {
        best, bestCount := Some(a), tally[a];
      }
    }
    if best.Some? {
      assert Leads(tally, best.value);
      LeaderIsUnique(tally, best.value, Leader(tally).value);
    }
  }

  lemma LeaderIsUnique(tally: map<Address, nat>, a: Address, b: Address)
    requires Leads(tally, a) && Leads(tally, b)
    ensures a == b
  {
  }

  lemma TalliesArePositive(votes: seq<VoteEntry>, round: uint32)
    ensures forall a :: a in TallyVotes(votes, round) ==> TallyVotes(votes, round)[a] > 0
  {
    if votes != [] {
      TalliesArePositive(votes[..|votes| - 1], round);
    }
  }

  method PickVote(circle: Circle, members: seq<Member>, votes: seq<VoteEntry>, round: uint32) returns (r: Result<Address, CircleError>)
    ensures r == ResolveVote(circle, members, votes, round)
  {
    var active := CountActiveMembers(members);
    var quorum := active / 2 + 1;
    var tally: map<Address, nat> := map[];
    var matches := 0;
    for i := 0 to |votes|
      invariant tally == TallyVotes(votes[..i], round) && matches == CountVotes(votes[..i], round)
    {
      assert votes[..i + 1][..i] == votes[..i];
      if votes[i].round == round {
        matches := matches + 1;
        tally := tally[votes[i].voteFor := Of(tally, votes[i].voteFor) + 1];
      }
    }
    assert votes[..|votes|] == votes;
    if matches < quorum {
      return Err(VoteQuorumNotMet);
    }
    TalliesArePositive(votes, round);
    var winner := FindLeader(tally);
    if winner.None? {
      return Err(VoteQuorumNotMet);
    }
    r := CheckEligible(circle, members, winner.value);
  }

  /** The random resolver, drawing from the stored generator. */
  method PickRandom(vrf: VrfStore, circle: Circle, members: seq<Member>, round: uint32) returns (r: Result<Address, CircleError>)
    modifies vrf
    ensures match ResolveRandom(vrf.hash, circle, members, old(vrf.View()), round)
            case Ok(p) => r == Ok(p.recipient) && vrf.View() == p.vrf
            case Err(e) => r == Err(e)
  {
    var drawn := vrf.Shuffle(circle.maxMembers, NonceBase(round));
    if drawn.Err? {
      return Err(InvalidAmount);
    }
    r := PickByOrder(circle, members, drawn.value);
  }
}
