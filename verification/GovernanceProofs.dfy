/** Tallies, delegation, the status index and the timelocks of governance, over every run. */
module GovernanceProofs {
  import opened Common
  import opened Governance

  // ----- tallies -----

  /** The powers recorded on proposal `id` under `choice`, one entry for each voter on record. */
  ghost function Powers(votes: Votes, id: uint64, choice: Choice): map<(uint64, Address), int> {
    map k | k in votes && k.0 == id && votes[k].choice == choice :: votes[k].power
  }

  ghost function Tally(votes: Votes, id: uint64, choice: Choice): int {
    SumMap(Powers(votes, id, choice))
  }

  lemma RecordAdds(votes: Votes, id: uint64, a: Address, record: VoteRecord, other: uint64, choice: Choice)
    requires (id, a) !in votes
    ensures Tally(votes[(id, a) := record], other, choice)
            == Tally(votes, other, choice) + if other == id && choice == record.choice then record.power else 0
  {
    if other == id && choice == record.choice {
      assert Powers(votes[(id, a) := record], other, choice) == Powers(votes, other, choice)[(id, a) := record.power];
      SumMapUpdate(Powers(votes, other, choice), (id, a), record.power);
    } else {
      assert Powers(votes[(id, a) := record], other, choice) == Powers(votes, other, choice);
    }
  }

  /** Gathering delegators raises exactly the chosen tally, by exactly what it adds to the total, and
      never touches a record that is already there: no address counts twice. */
  lemma {:induction false} GatherAdds(g: Gathered, id: uint64, ds: seq<Address>, choice: Choice, power: Address -> int128, now: uint64,
                                      other: uint64, c: Choice)
    requires Gather(g, id, ds, choice, power, now).Ok?
    ensures var g' := Gather(g, id, ds, choice, power, now).value;
            Tally(g'.votes, other, c) == Tally(g.votes, other, c) + (if other == id && c == choice then g'.total - g.total else 0)
    decreases |ds|
  {
    if ds != [] {
      hide Tally;
      var d := ds[0];
      if (id, d) in g.votes {
        GatherAdds(g, id, ds[1..], choice, power, now, other, c);
      } else {
        var record := VoteRecord(choice, power(d), now);
        RecordAdds(g.votes, id, d, record, other, c);
        GatherAdds(Gathered(g.votes[(id, d) := record], g.total + power(d)), id, ds[1..], choice, power, now, other, c);
      }
    }
  }

  lemma {:induction false} GatherRecords(g: Gathered, id: uint64, ds: seq<Address>, choice: Choice, power: Address -> int128, now: uint64)
    requires Gather(g, id, ds, choice, power, now).Ok?
    ensures var g' := Gather(g, id, ds, choice, power, now).value;
            && (forall k :: k in g.votes ==> k in g'.votes && g'.votes[k] == g.votes[k])
            && (forall k :: k in g'.votes && k !in g.votes ==>
                  k.0 == id && k.1 in ds && g'.votes[k] == VoteRecord(choice, power(k.1), now))
            && (forall d :: d in ds ==> (id, d) in g'.votes)
    decreases |ds|
  {
    if ds != [] {
      var d := ds[0];
      if (id, d) in g.votes {
        GatherRecords(g, id, ds[1..], choice, power, now);
      } else {
        GatherRecords(Gathered(g.votes[(id, d) := VoteRecord(choice, power(d), now)], g.total + power(d)), id, ds[1..], choice, power, now);
      }
    }
  }

  /** Every tally is the sum of the powers on record for it, and no record is for a missing proposal. */
  ghost predicate TalliesSound(s: State) {
    && (forall id: uint64, c: Choice :: Tally(s.votes, id, c) == if id in s.proposals then TallyOf(s.proposals[id], c) else 0)
    && (forall k :: k in s.votes ==> k.0 in s.proposals)
  }

  lemma VoteShape(s: State, voter: Address, id: uint64, choice: Choice, power: Address -> int128) returns (own: Gathered, all: Gathered)
    requires CastVote(s, voter, id, choice, power).Ok?
    ensures id in s.proposals && s.proposals[id].status == Active && s.now <= s.proposals[id].votingEndsAt
    ensures (id, voter) !in s.votes && voter !in s.delegation
    ensures own == Gathered(s.votes[(id, voter) := VoteRecord(choice, power(voter), s.now)], power(voter))
    ensures Gather(own, id, DelegatorsOf(s.delegators, voter), choice, power, s.now) == Ok(all)
    ensures var p := s.proposals[id];
            && FitsI128(TallyOf(p, choice) + all.total)
            && CastVote(s, voter, id, choice, power).value
               == s.(votes := all.votes, proposals := s.proposals[id := WithTally(p, choice, TallyOf(p, choice) + all.total)])
  {
    own := Gathered(s.votes[(id, voter) := VoteRecord(choice, power(voter), s.now)], power(voter));
    all := Gather(own, id, DelegatorsOf(s.delegators, voter), choice, power, s.now).value;
  }

  lemma VoteKeepsTallies(s: State, voter: Address, id: uint64, choice: Choice, power: Address -> int128)
    requires TalliesSound(s) && CastVote(s, voter, id, choice, power).Ok?
    ensures TalliesSound(CastVote(s, voter, id, choice, power).value)
  {
    hide CastVote, Tally, Gather;
    var own, all := VoteShape(s, voter, id, choice, power);
    var s' := CastVote(s, voter, id, choice, power).value;
    forall other: uint64, c: Choice
      ensures Tally(s'.votes, other, c) == if other in s'.proposals then TallyOf(s'.proposals[other], c) else 0
    {
      RecordAdds(s.votes, id, voter, VoteRecord(choice, power(voter), s.now), other, c);
      GatherAdds(own, id, DelegatorsOf(s.delegators, voter), choice, power, s.now, other, c);
    }
    GatherRecords(own, id, DelegatorsOf(s.delegators, voter), choice, power, s.now);
  }

  /** One vote: the voter and each delegator without a record are now on record under the same choice,
      every earlier record stands, and nobody else is recorded. */
  lemma VoteRecordsEachOnce(s: State, voter: Address, id: uint64, choice: Choice, power: Address -> int128)
    requires CastVote(s, voter, id, choice, power).Ok?
    ensures var s' := CastVote(s, voter, id, choice, power).value;
            && (forall k :: k in s.votes ==> k in s'.votes && s'.votes[k] == s.votes[k])
            && (forall k :: k in s'.votes && k !in s.votes <==>
                  k.0 == id && (k.1 == voter || k.1 in DelegatorsOf(s.delegators, voter)) && k !in s.votes)
            && (forall k :: k in s'.votes && k !in s.votes ==> s'.votes[k] == VoteRecord(choice, power(k.1), s.now))
  {
    hide CastVote;
    var own, all := VoteShape(s, voter, id, choice, power);
    GatherRecords(own, id, DelegatorsOf(s.delegators, voter), choice, power, s.now);
  }

  // ----- delegation -----

  /** Delegation is a forest of depth one, and the lists of delegators are its inverse. */
  ghost predicate Forest(delegation: map<Address, Address>, lists: DelegatorLists) {
    && (forall b :: Distinct(DelegatorsOf(lists, b)))
    && (forall a, b :: a in DelegatorsOf(lists, b) <==> a in delegation && delegation[a] == b)
    && (forall a :: a in delegation ==> delegation[a] !in delegation && delegation[a] != a)
  }

  lemma RemovalKeepsForest(delegation: map<Address, Address>, lists: DelegatorLists, a: Address)
    requires Forest(delegation, lists) && a in delegation
    ensures Forest(delegation - {a}, RemoveDelegator(lists, delegation[a], a))
  {
    var b := delegation[a];
    var lists' := RemoveDelegator(lists, b, a);
    WithoutMembers(DelegatorsOf(lists, b), a);
    WithoutDistinct(DelegatorsOf(lists, b), a);
    forall x
      ensures DelegatorsOf(lists', x) == if x == b then Without(DelegatorsOf(lists, b), a) else DelegatorsOf(lists, x)
    {
    }
  }

  lemma AdditionKeepsForest(delegation: map<Address, Address>, lists: DelegatorLists, a: Address, b: Address)
    requires Forest(delegation, lists) && a !in delegation && a != b && b !in delegation
    requires DelegatorsOf(lists, a) == []
    ensures Forest(delegation[a := b], AddDelegator(lists, b, a))
  {
    var lists' := AddDelegator(lists, b, a);
    assert a !in DelegatorsOf(lists, b);
    forall x
      ensures DelegatorsOf(lists', x) == if x == b then DelegatorsOf(lists, b) + [a] else DelegatorsOf(lists, x)
    {
    }
    forall x | x in delegation
      ensures delegation[x] != a
    {
      assert x in DelegatorsOf(lists, delegation[x]);
    }
  }

  lemma DelegateKeepsForest(s: State, a: Address, b: Address)
    requires Forest(s.delegation, s.delegators) && Delegate(s, a, b).Ok?
    ensures var s' := Delegate(s, a, b).value;
            s' == s.(delegation := s'.delegation, delegators := s'.delegators) && Forest(s'.delegation, s'.delegators)
  {
    if a in s.delegation {
      var old_ := s.delegation[a];
      RemovalKeepsForest(s.delegation, s.delegators, a);
      assert DelegatorsOf(RemoveDelegator(s.delegators, old_, a), a) == [];
      AdditionKeepsForest(s.delegation - {a}, RemoveDelegator(s.delegators, old_, a), a, b);
      assert (s.delegation - {a})[a := b] == s.delegation[a := b];
    } else {
      AdditionKeepsForest(s.delegation, s.delegators, a, b);
    }
  }

  lemma RevokeKeepsForest(s: State, a: Address)
    requires Forest(s.delegation, s.delegators) && RevokeDelegation(s, a).Ok?
    ensures var s' := RevokeDelegation(s, a).value;
            s' == s.(delegation := s'.delegation, delegators := s'.delegators) && Forest(s'.delegation, s'.delegators)
  {
    if a in s.delegation {
      RemovalKeepsForest(s.delegation, s.delegators, a);
    }
  }

  // ----- the status index -----

  /** The lists by status hold each proposal exactly once, under its own status. */
  ghost predicate Indexed(s: State) {
    && (forall st :: Distinct(Listed(s.byStatus, st)))
    && (forall st, id :: id in Listed(s.byStatus, st) <==> id in s.proposals && s.proposals[id].status == st)
  }

  lemma CreateKeepsIndex(s: State, s': State, id: uint64, p: Proposal)
    requires Indexed(s) && id !in s.proposals
    requires s'.proposals == s.proposals[id := p] && s'.byStatus == AddToStatus(s.byStatus, p.status, id)
    ensures Indexed(s')
  {
    forall st
      ensures Listed(s'.byStatus, st) == if st == p.status then Listed(s.byStatus, st) + [id] else Listed(s.byStatus, st)
    {
    }
  }

  /** The list of status `st` after a proposal moved from `p.status` to `status`. */
  lemma RelistedOne(s: State, p: Proposal, status: Status, st: Status) returns (after: seq<uint64>)
    requires Indexed(s) && p.id in s.proposals && s.proposals[p.id].status == p.status != status
    ensures after == Listed(AddToStatus(RemoveFromStatus(s.byStatus, p.status, p.id), status, p.id), st)
    ensures Distinct(after)
    ensures forall id :: id in after <==> if id == p.id then st == status else id in Listed(s.byStatus, st)
  {
    var before := Listed(s.byStatus, st);
    after := if st == status then before + [p.id] else if st == p.status then Without(before, p.id) else before;
    WithoutMembers(before, p.id);
    WithoutDistinct(before, p.id);
  }

  lemma RestateKeepsIndex(s: State, s': State, p: Proposal, status: Status)
    requires Indexed(s) && p.id in s.proposals && s.proposals[p.id].status == p.status != status
    requires s'.proposals == s.proposals[p.id := p.(status := status)]
    requires s'.byStatus == AddToStatus(RemoveFromStatus(s.byStatus, p.status, p.id), status, p.id)
    ensures Indexed(s')
  {
    hide AddToStatus, RemoveFromStatus, Listed;
    forall st
      ensures Distinct(Listed(s'.byStatus, st))
      ensures forall id :: id in Listed(s'.byStatus, st) <==> id in s'.proposals && s'.proposals[id].status == st
    {
      var after := RelistedOne(s, p, status, st);
    }
  }

  // ----- the life of a proposal -----

  ghost predicate Met(p: Proposal, c: Config) {
    && p.votesFor + p.votesAgainst > 0
    && p.votesFor + p.votesAgainst + p.votesAbstain >= c.quorumVotes
    && p.votesFor * BPS_DENOM >= c.passThresholdBps * (p.votesFor + p.votesAgainst)
  }

  /** The floored percentage test is the exact one: whenever it is computed at all, a proposal passes if
      and only if quorum is met and its share of directional votes reaches the threshold. */
  lemma PassTestIsExact(p: Proposal, c: Config)
    requires c.passThresholdBps > 0 && ProposalPasses(p, c).Ok?
    ensures ProposalPasses(p, c).value <==> Met(p, c)
  {
    if p.votesFor + p.votesAgainst > 0 {
      FlooredShare(p.votesFor, p.votesFor + p.votesAgainst, c.passThresholdBps);
    }
  }

  lemma FlooredShare(f: int, d: int, t: int)
    requires d > 0 && t > 0
    ensures TruncDiv(f * BPS_DENOM, d) >= t <==> f * BPS_DENOM >= t * d
  {
    if f >= 0 {
      QuotientReaches(f * BPS_DENOM, d, t);
    } else {
      assert t * d > 0;
      assert (-(f * BPS_DENOM)) / d >= 0;
    }
  }

  lemma QuotientReaches(x: nat, d: nat, t: nat)
    requires d > 0
    ensures x / d >= t <==> x >= t * d
  {
    FloorBounds(x, d);
    var q := x / d;
    if q >= t {
      assert (q - t) * d >= 0;
    } else {
      assert (t - q - 1) * d >= 0;
    }
  }

  lemma ShareGrows(f: int, d: int, t: nat, extra: nat)
    requires t <= BPS_DENOM && f * BPS_DENOM >= t * d
    ensures (f + extra) * BPS_DENOM >= t * (d + extra)
  {
    assert (BPS_DENOM - t) * extra >= 0;
  }

  /** The sums and the product that the pass test computes with checked i128 arithmetic. */
  predicate PassTestFits(p: Proposal) {
    && FitsI128(p.votesFor + p.votesAgainst)
    && FitsI128(p.votesFor + p.votesAgainst + p.votesAbstain)
    && FitsI128(p.votesFor * BPS_DENOM)
  }

  /** More support for a passing proposal never makes it fail: it passes still, unless one of the sums or
      the product overflows, and then finalization is refused instead. */
  lemma ExtraForVoteNeverHurts(p: Proposal, c: Config, extra: nat)
    requires ValidConfig(c) && FitsI128(p.votesFor + extra)
    requires ProposalPasses(p, c) == Ok(true)
    ensures var more := p.(votesFor := p.votesFor + extra);
            ProposalPasses(more, c) == if PassTestFits(more) then Ok(true) else Err(InvalidConfig)
  {
    var more := p.(votesFor := p.votesFor + extra);
    MorePassesOrOverflows(p, c, extra);
    if PassTestFits(more) {
      hide ProposalPasses;
      PassTestIsExact(p, c);
      PassTestIsExact(more, c);
      ShareGrows(p.votesFor, p.votesFor + p.votesAgainst, c.passThresholdBps, extra);
    }
  }

  lemma MorePassesOrOverflows(p: Proposal, c: Config, extra: nat)
    requires FitsI128(p.votesFor + extra) && ProposalPasses(p, c) == Ok(true)
    ensures var more := p.(votesFor := p.votesFor + extra);
            if PassTestFits(more) then ProposalPasses(more, c).Ok? else ProposalPasses(more, c) == Err(InvalidConfig)
  {
  }

  /** What the record of one proposal id must look like. */
  ghost predicate LifeSound(s: State, id: uint64) {
    && (id in s.proposals <==> id < s.count)
    && (id in s.deposits <==> id in s.proposals && s.proposals[id].status == Active)
    && (id in s.proposals ==>
          var p := s.proposals[id];
          && p.id == id
          && p.status !in {Draft, Succeeded}
          && (p.status in {Queued, Executed} ==>
                && id in s.finalizations
                && var f := s.finalizations[id];
                   ValidConfig(f.config) && Met(p, f.config)
                   && p.votingEndsAt < f.at <= s.now && p.timelockEndsAt == f.at + f.config.timelockSeconds)
          && (p.status == Executed ==> id in s.executions && p.timelockEndsAt <= s.executions[id] <= s.now))
  }

  /** A valid configuration, and at most one pending replacement, queued 48 hours before it can run. */
  ghost predicate ConfigSound(s: State) {
    && ValidConfig(s.config)
    && (s.pending.Some? ==>
          && ValidConfig(s.pending.value.newConfig)
          && s.pending.value.queuedAt <= s.now
          && s.pending.value.executableAt == s.pending.value.queuedAt + CONFIG_TIMELOCK_SECONDS)
  }

  ghost predicate Inv(s: State) {
    && TalliesSound(s)
    && Forest(s.delegation, s.delegators)
    && Indexed(s)
    && ConfigSound(s)
    && forall id: uint64 :: LifeSound(s, id)
  }

  // ----- the entry points that change a proposal's status -----

  /** A step that moves proposal `p` (possibly with a new timelock) to `status` and touches nothing else
      but that proposal's deposit and history. */
  ghost predicate Restates(s: State, s': State, p: Proposal, status: Status) {
    && p.id in s.proposals && s.proposals[p.id] == p.(timelockEndsAt := s.proposals[p.id].timelockEndsAt)
    && p.status in {Active, Queued} && status !in {Active, Draft, Succeeded} && p.status != status
    && s' == s.(proposals := s.proposals[p.id := p.(status := status)],
                byStatus := AddToStatus(RemoveFromStatus(s.byStatus, p.status, p.id), status, p.id),
                deposits := s.deposits - {p.id},
                finalizations := s'.finalizations, executions := s'.executions)
    && s'.finalizations - {p.id} == s.finalizations - {p.id}
    && s'.executions - {p.id} == s.executions - {p.id}
  }

  lemma RestatesKeeps(s: State, s': State, p: Proposal, status: Status)
    requires Inv(s) && Restates(s, s', p, status) && LifeSound(s', p.id)
    ensures Inv(s')
  {
    RestateKeepsIndex(s, s', p, status);
    forall other: uint64, c: Choice
      ensures Tally(s'.votes, other, c) == if other in s'.proposals then TallyOf(s'.proposals[other], c) else 0
    {
      assert Tally(s.votes, other, c) == if other in s.proposals then TallyOf(s.proposals[other], c) else 0;
    }
    forall other: uint64
      ensures LifeSound(s', other)
    {
      if other != p.id {
        OtherLifeSound(s, s', p, status, other);
      }
    }
  }

  lemma OtherLifeSound(s: State, s': State, p: Proposal, status: Status, other: uint64)
    requires Restates(s, s', p, status) && LifeSound(s, other) && other != p.id
    ensures LifeSound(s', other)
  {
    assert other in s.finalizations ==> other in s.finalizations - {p.id} && s'.finalizations[other] == (s'.finalizations - {p.id})[other];
    assert other in s.executions ==> other in s.executions - {p.id} && s'.executions[other] == (s'.executions - {p.id})[other];
  }

  /** The proposal as finalization leaves it: queued behind the timelock of the configuration in force
      when that configuration's quorum and threshold are met, defeated otherwise. */
  function Finalized(s: State, p: Proposal, passed: bool): Proposal {
    if passed && s.now + s.config.timelockSeconds <= U64_MAX
    then p.(status := Queued, timelockEndsAt := s.now + s.config.timelockSeconds)
    else p.(status := Defeated)
  }

  lemma FinalizeRestates(s: State, id: uint64) returns (passed: bool)
    requires LifeSound(s, id) && ConfigSound(s) && FinalizeProposal(s, id).Ok?
    ensures id in s.proposals && passed == Met(s.proposals[id], s.config)
    ensures var s', p' := FinalizeProposal(s, id).value, Finalized(s, s.proposals[id], passed);
            && s'.finalizations == s.finalizations[id := Finalization(s.now, s.config)]
            && (passed ==> p'.status == Queued)
            && s.proposals[id].status == Active && s.now > s.proposals[id].votingEndsAt
            && Restates(s, s', p'.(status := Active), p'.status)
  {
    hide ProposalPasses, Met, AddToStatus, RemoveFromStatus;
    PassTestIsExact(s.proposals[id], s.config);
    passed := ProposalPasses(s.proposals[id], s.config).value;
    var s' := FinalizeProposal(s, id).value;
    assert s'.finalizations - {id} == s.finalizations - {id};
  }

  lemma FinalizeLife(s: State, id: uint64)
    requires LifeSound(s, id) && ConfigSound(s) && FinalizeProposal(s, id).Ok?
    ensures LifeSound(FinalizeProposal(s, id).value, id)
  {
    hide FinalizeProposal, Met;
    var passed := FinalizeRestates(s, id);
    MetIgnoresStatus(s.proposals[id], s.config, s.now);
  }

  lemma MetIgnoresStatus(p: Proposal, c: Config, now: uint64)
    ensures now + c.timelockSeconds <= U64_MAX ==>
              (Met(p.(timelockEndsAt := now + c.timelockSeconds, status := Queued), c) <==> Met(p, c))
  {
  }

  lemma ExecuteRestates(s: State, id: uint64, hostOk: bool)
    requires LifeSound(s, id) && ExecuteProposal(s, id, hostOk).Ok?
    ensures id in s.proposals
    ensures var s' := ExecuteProposal(s, id, hostOk).value;
            LifeSound(s', id) && Restates(s, s', s.proposals[id], Executed)
  {
    assert id !in s.deposits;
    assert s.deposits - {id} == s.deposits;
  }

  lemma CancelRestates(s: State, caller: Address, id: uint64)
    requires LifeSound(s, id) && CancelProposal(s, caller, id).Ok?
    ensures id in s.proposals
    ensures var s' := CancelProposal(s, caller, id).value;
            LifeSound(s', id) && Restates(s, s', s.proposals[id], Cancelled)
  {
  }

  lemma ExpireRestates(s: State, id: uint64)
    requires LifeSound(s, id) && ExpireProposal(s, id).Ok?
    ensures id in s.proposals
    ensures var s' := ExpireProposal(s, id).value;
            LifeSound(s', id) && Restates(s, s', s.proposals[id], Expired)
  {
  }

  // ----- the other entry points -----

  lemma CreateKeeps(s: State, proposer: Address, deposit: int128)
    requires Inv(s) && CreateProposal(s, proposer, deposit).Ok?
    ensures Inv(CreateProposal(s, proposer, deposit).value)
  {
    var s' := CreateProposal(s, proposer, deposit).value;
    var id := s.count;
    assert LifeSound(s, id);
    CreateKeepsIndex(s, s', id, s'.proposals[id]);
    forall other: uint64, c: Choice
      ensures Tally(s'.votes, other, c) == if other in s'.proposals then TallyOf(s'.proposals[other], c) else 0
    {
      assert Tally(s.votes, other, c) == if other in s.proposals then TallyOf(s.proposals[other], c) else 0;
    }
    forall other: uint64
      ensures LifeSound(s', other)
    {
      assert LifeSound(s, other);
    }
  }

  lemma VoteKeeps(s: State, voter: Address, id: uint64, choice: Choice, power: Address -> int128)
    requires Inv(s) && CastVote(s, voter, id, choice, power).Ok?
    ensures Inv(CastVote(s, voter, id, choice, power).value)
  {
    hide CastVote;
    VoteKeepsTallies(s, voter, id, choice, power);
    var own, all := VoteShape(s, voter, id, choice, power);
    var s' := CastVote(s, voter, id, choice, power).value;
    assert forall x :: x in s'.proposals <==> x in s.proposals;
    assert forall x :: x in s.proposals ==> s'.proposals[x].status == s.proposals[x].status;
    forall st
      ensures Listed(s'.byStatus, st) == Listed(s.byStatus, st)
    {
    }
    forall other: uint64
      ensures LifeSound(s', other)
    {
      assert LifeSound(s, other);
    }
  }

  /** Steps that leave proposals, votes and their index alone. */
  lemma AsideKeeps(s: State, s': State)
    requires Inv(s)
    requires s' == s.(config := s'.config, pending := s'.pending, delegation := s'.delegation, delegators := s'.delegators, now := s'.now)
    requires s'.now >= s.now && ConfigSound(s') && Forest(s'.delegation, s'.delegators)
    ensures Inv(s')
  {
    forall other: uint64
      ensures LifeSound(s', other)
    {
      assert LifeSound(s, other);
    }
  }

  predicate IsConfigCall(c: Call) {
    c.CallQueueConfig? || c.CallExecuteConfig? || c.CallCancelConfig? || c.Tick?
  }

  lemma ConfigCallKeeps(s: State, c: Call)
    requires IsConfigCall(c) && ConfigSound(s) && Outcome(s, c).Ok?
    ensures var s' := Outcome(s, c).value;
            s' == s.(config := s'.config, pending := s'.pending, now := s'.now) && s'.now >= s.now && ConfigSound(s')
  {
    hide CreateProposal, CastVote, Delegate, RevokeDelegation, FinalizeProposal, ExecuteProposal, CancelProposal, ExpireProposal;
  }

  lemma IdsMatch(s: State, id: uint64)
    requires LifeSound(s, id) && id in s.proposals
    ensures s.proposals[id].id == id
  {
  }

  lemma StepKeeps(s: State, c: Call)
    requires Inv(s)
    ensures Inv(Settled(s, Outcome(s, c)))
  {
    hide CreateProposal, CastVote, Delegate, RevokeDelegation, FinalizeProposal, ExecuteProposal, CancelProposal, ExpireProposal,
         QueueConfigUpdate, ExecuteConfigUpdate, CancelConfigUpdate, TalliesSound, Forest, Indexed, LifeSound, Restates;
    var out := Outcome(s, c);
    if out.Ok? {
      match c
      case CallCreate(p, d) => CreateKeeps(s, p, d);
      case CallVote(v, id, choice, power) => VoteKeeps(s, v, id, choice, power);
      case CallDelegate(a, b) => DelegateKeepsForest(s, a, b); AsideKeeps(s, out.value);
      case CallRevoke(a) => RevokeKeepsForest(s, a); AsideKeeps(s, out.value);
      case CallFinalize(id) =>
        var passed := FinalizeRestates(s, id);
        var p' := Finalized(s, s.proposals[id], passed);
        FinalizeLife(s, id);
        assert p'.id == id by { IdsMatch(s, id); }
        RestatesKeeps(s, out.value, p'.(status := Active), p'.status);
      case CallExecute(id, hostOk) =>
        ExecuteRestates(s, id, hostOk);
        RestatesKeeps(s, out.value, s.proposals[id], Executed);
      case CallCancel(caller, id) =>
        CancelRestates(s, caller, id);
        RestatesKeeps(s, out.value, s.proposals[id], Cancelled);
      case CallExpire(id) =>
        ExpireRestates(s, id);
        RestatesKeeps(s, out.value, s.proposals[id], Expired);
      case _ => ConfigCallKeeps(s, c); AsideKeeps(s, out.value);
    }
  }

  ghost predicate Reachable(s: State) {
    exists admin, config, now, calls ::
      Init(admin, config, now).Ok? && s == Run(Init(admin, config, now).value, calls)
  }

  lemma {:induction false} RunKeeps(s: State, calls: seq<Call>)
    requires Inv(s)
    ensures Inv(Run(s, calls))
  {
    if calls != [] {
      RunKeeps(s, calls[..|calls| - 1]);
      StepKeeps(Run(s, calls[..|calls| - 1]), calls[|calls| - 1]);
    }
  }

  lemma InitIsSound(admin: Address, config: Config, now: uint64)
    requires Init(admin, config, now).Ok?
    ensures Inv(Init(admin, config, now).value)
  {
    var s := Init(admin, config, now).value;
    forall id: uint64, c: Choice
      ensures Tally(s.votes, id, c) == 0
    {
      assert Powers(s.votes, id, c) == map[];
    }
  }

  /** Main result: in every reachable state each tally is the sum of the powers on record for it,
      delegation is a forest of depth one with its inverse listed, the status lists partition the
      proposals, a deposit is held exactly for the active ones, queued and executed proposals met
      quorum and threshold under the configuration of their finalization and wait out its timelock,
      and the configuration is valid. */
  lemma ReachableStatesAreSound(s: State)
    requires Reachable(s)
    ensures Inv(s)
  {
    var admin, config, now, calls :| Init(admin, config, now).Ok? && s == Run(Init(admin, config, now).value, calls);
    InitIsSound(admin, config, now);
    RunKeeps(Init(admin, config, now).value, calls);
  }
}
