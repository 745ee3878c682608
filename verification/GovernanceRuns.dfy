/** What governance guarantees from one moment of a run to a later one. */
module GovernanceRuns {
  import opened Common
  import opened Governance
  import opened GovernanceProofs

  // ----- reading the invariant -----

  /** Each tally is the sum of the vote powers on record under it. */
  lemma TalliesAreSumsOfRecords(s: State, id: uint64, choice: Choice)
    requires Reachable(s) && id in s.proposals
    ensures TallyOf(s.proposals[id], choice) == Tally(s.votes, id, choice)
  {
    ReachableStatesAreSound(s);
    assert Tally(s.votes, id, choice) == if id in s.proposals then TallyOf(s.proposals[id], choice) else 0;
  }

  /** `a` delegates to `b` exactly when `a` occurs once in the list of `b`'s delegators, and otherwise
      does not occur there; delegatees never delegate. */
  lemma DelegatorListsInvertDelegation(s: State, a: Address, b: Address)
    requires Reachable(s)
    ensures multiset(DelegatorsOf(s.delegators, b))[a] == if a in s.delegation && s.delegation[a] == b then 1 else 0
    ensures a in s.delegation ==> s.delegation[a] != a && s.delegation[a] !in s.delegation && DelegatorsOf(s.delegators, a) == []
  {
    ReachableStatesAreSound(s);
    DistinctCounts(DelegatorsOf(s.delegators, b), a);
    if DelegatorsOf(s.delegators, a) != [] {
      var x := DelegatorsOf(s.delegators, a)[0];
      assert x in DelegatorsOf(s.delegators, a);
      assert s.delegation[x] == a;
    }
  }

  lemma {:induction false} DistinctCounts<T>(list: seq<T>, x: T)
    requires Distinct(list)
    ensures multiset(list)[x] == if x in list then 1 else 0
  {
    if list != [] {
      var n := |list| - 1;
      DistinctCounts(list[..n], x);
      assert list == list[..n] + [list[n]];
    }
  }

  /** The status lists hold every proposal id once and nothing else, and a deposit entry exists exactly
      while its proposal is active. */
  lemma StatusListsPartitionProposals(s: State, id: uint64, status: Status)
    requires Reachable(s)
    ensures multiset(Listed(s.byStatus, status))[id]
            == if id < s.count && id in s.proposals && s.proposals[id].status == status then 1 else 0
    ensures id < s.count <==> id in s.proposals
    ensures id in s.deposits <==> id in Listed(s.byStatus, Active)
  {
    ReachableStatesAreSound(s);
    assert LifeSound(s, id);
    DistinctCounts(Listed(s.byStatus, status), id);
  }

  /** An executed proposal met quorum and threshold under the configuration of its finalization, and ran
      no earlier than that configuration's timelock after it. */
  lemma ExecutedProposalsMetTheirTerms(s: State, id: uint64)
    requires Reachable(s) && id in s.proposals && s.proposals[id].status == Executed
    ensures id in s.finalizations && id in s.executions
    ensures Met(s.proposals[id], s.finalizations[id].config)
    ensures s.executions[id] >= s.finalizations[id].at + s.finalizations[id].config.timelockSeconds
    ensures s.finalizations[id].at > s.proposals[id].votingEndsAt
  {
    ReachableStatesAreSound(s);
    assert LifeSound(s, id);
  }

  // ----- what later steps leave alone -----

  predicate Terminal(status: Status) {
    status in {Executed, Defeated, Cancelled, Expired}
  }

  predicate MayBecome(from: Status, to: Status) {
    || from == to
    || (from == Active && to in {Queued, Executed, Defeated, Cancelled, Expired})
    || (from == Queued && to in {Executed, Expired})
  }

  function Terms(p: Proposal): (uint64, Address, int128, uint64, uint64) {
    (p.id, p.proposer, p.depositAmount, p.createdAt, p.votingEndsAt)
  }

  function Tallies(p: Proposal): (int128, int128, int128) {
    (p.votesFor, p.votesAgainst, p.votesAbstain)
  }

  /** From `s` to the later `s'`: the proposal keeps its terms, its status only moves forward, and once
      voting is over its tallies, votes and finalization are fixed; a terminal proposal is fixed whole. */
  ghost predicate Later(s: State, s': State, id: uint64) {
    id in s.proposals ==>
      && id in s'.proposals
      && var p, p' := s.proposals[id], s'.proposals[id];
         && Terms(p') == Terms(p) && MayBecome(p.status, p'.status)
         && (forall a :: (id, a) in s.votes ==> (id, a) in s'.votes && s'.votes[(id, a)] == s.votes[(id, a)])
         && (p.status != Active ==>
               && Tallies(p') == Tallies(p)
               && (forall a :: (id, a) in s'.votes ==> (id, a) in s.votes)
               && (id in s.finalizations ==> id in s'.finalizations && s'.finalizations[id] == s.finalizations[id]))
         && (Terminal(p.status) ==> p' == p)
  }

  lemma RestatesIsLater(s: State, s': State, p: Proposal, status: Status, id: uint64)
    requires Restates(s, s', p, status)
    requires p.status == Queued ==> s.proposals[p.id] == p && s'.finalizations == s.finalizations && status in {Executed, Expired}
    requires p.status == Active ==> status in {Queued, Defeated, Cancelled, Expired}
    ensures Later(s, s', id)
  {
    if id != p.id {
      assert id in s.finalizations ==> id in s.finalizations - {p.id} && s'.finalizations[id] == (s'.finalizations - {p.id})[id];
    }
  }

  lemma ExecuteKeepsFinalizations(s: State, id: uint64, hostOk: bool)
    requires ExecuteProposal(s, id, hostOk).Ok?
    ensures ExecuteProposal(s, id, hostOk).value.finalizations == s.finalizations && s.proposals[id].status == Queued
  {
  }

  lemma CancelNeedsActive(s: State, caller: Address, id: uint64)
    requires CancelProposal(s, caller, id).Ok?
    ensures s.proposals[id].status == Active
  {
  }

  lemma ExpireKeepsFinalizations(s: State, id: uint64)
    requires ExpireProposal(s, id).Ok?
    ensures ExpireProposal(s, id).value.finalizations == s.finalizations
  {
  }

  lemma VoteIsLater(s: State, voter: Address, voted: uint64, choice: Choice, power: Address -> int128, id: uint64)
    requires CastVote(s, voter, voted, choice, power).Ok?
    ensures Later(s, CastVote(s, voter, voted, choice, power).value, id)
  {
    hide CastVote;
    VoteRecordsEachOnce(s, voter, voted, choice, power);
    var own, all := VoteShape(s, voter, voted, choice, power);
  }

  lemma CreateIsLater(s: State, proposer: Address, deposit: int128, id: uint64)
    requires LifeSound(s, s.count) && CreateProposal(s, proposer, deposit).Ok?
    ensures Later(s, CreateProposal(s, proposer, deposit).value, id)
  {
  }

  lemma AsideIsLater(s: State, s': State, id: uint64)
    requires s'.proposals == s.proposals && s'.votes == s.votes && s'.finalizations == s.finalizations
    ensures Later(s, s', id)
  {
  }

  lemma StepIsLater(s: State, c: Call, id: uint64)
    requires Inv(s)
    ensures Later(s, Settled(s, Outcome(s, c)), id)
  {
    hide CreateProposal, CastVote, Delegate, RevokeDelegation, FinalizeProposal, ExecuteProposal, CancelProposal, ExpireProposal,
         QueueConfigUpdate, ExecuteConfigUpdate, CancelConfigUpdate, TalliesSound, Forest, Indexed, Later;
    var out := Outcome(s, c);
    if out.Ok? {
      match c
      case CallCreate(p, d) =>
        assert LifeSound(s, s.count);
        CreateIsLater(s, p, d, id);
      case CallVote(v, voted, choice, power) => VoteIsLater(s, v, voted, choice, power, id);
      case CallDelegate(a, b) => DelegateKeepsForest(s, a, b); AsideIsLater(s, out.value, id);
      case CallRevoke(a) => RevokeKeepsForest(s, a); AsideIsLater(s, out.value, id);
      case CallFinalize(x) =>
        assert LifeSound(s, x);
        var passed := FinalizeRestates(s, x);
        var p' := Finalized(s, s.proposals[x], passed);
        RestatesIsLater(s, out.value, p'.(status := Active), p'.status, id);
      case CallExecute(x, hostOk) =>
        assert LifeSound(s, x);
        ExecuteRestates(s, x, hostOk);
        ExecuteKeepsFinalizations(s, x, hostOk);
        RestatesIsLater(s, out.value, s.proposals[x], Executed, id);
      case CallCancel(caller, x) =>
        assert LifeSound(s, x);
        CancelRestates(s, caller, x);
        CancelNeedsActive(s, caller, x);
        RestatesIsLater(s, out.value, s.proposals[x], Cancelled, id);
      case CallExpire(x) =>
        assert LifeSound(s, x);
        ExpireRestates(s, x);
        ExpireKeepsFinalizations(s, x);
        RestatesIsLater(s, out.value, s.proposals[x], Expired, id);
      case _ => ConfigCallKeeps(s, c); AsideIsLater(s, out.value, id);
    } else {
      AsideIsLater(s, s, id);
    }
  }

  lemma LaterIsTransitive(s: State, t: State, u: State, id: uint64)
    requires Later(s, t, id) && Later(t, u, id)
    ensures Later(s, u, id)
  {
  }

  /** Main result: across any further run, decided tallies and terminal proposals never change. */
  lemma {:induction false} DecidedProposalsAreFrozen(s: State, calls: seq<Call>, id: uint64)
    requires Inv(s)
    ensures Inv(Run(s, calls)) && Later(s, Run(s, calls), id)
  {
    hide Inv, Outcome, Later;
    if calls != [] {
      var before, c := calls[..|calls| - 1], calls[|calls| - 1];
      DecidedProposalsAreFrozen(s, before, id);
      StepKeeps(Run(s, before), c);
      StepIsLater(Run(s, before), c, id);
      LaterIsTransitive(s, Run(s, before), Run(s, calls), id);
    } else {
      AsideIsLater(s, s, id);
    }
  }

  // ----- configuration changes -----

  /** The k-th call of the run queued `config` successfully. */
  ghost predicate QueuedAt(start: State, calls: seq<Call>, k: nat, config: Config)
    requires k < |calls|
  {
    && calls[k].CallQueueConfig? && calls[k].newConfig == config
    && Outcome(Run(start, calls[..k]), calls[k]).Ok?
  }

  ghost predicate PendingComesFrom(start: State, calls: seq<Call>, p: PendingConfig) {
    exists k :: 0 <= k < |calls| && QueuedAt(start, calls, k, p.newConfig) && Run(start, calls[..k]).now == p.queuedAt
  }

  /** `config` was queued by an earlier call of the run and put in force by a later one, 48 hours on. */
  ghost predicate AdoptedAfterDelay(start: State, calls: seq<Call>, config: Config) {
    exists k, m ::
      && 0 <= k < m < |calls|
      && QueuedAt(start, calls, k, config)
      && Adopts(start, calls, m, Run(start, calls[..k]).now)
  }

  ghost predicate Adopts(start: State, calls: seq<Call>, m: nat, queuedAt: uint64)
    requires m < |calls|
  {
    calls[m].CallExecuteConfig? && Run(start, calls[..m]).now >= queuedAt + CONFIG_TIMELOCK_SECONDS
  }

  lemma ProvenanceExtends(start: State, calls: seq<Call>, c: Call, p: PendingConfig, config: Config)
    ensures PendingComesFrom(start, calls, p) ==> PendingComesFrom(start, calls + [c], p)
    ensures AdoptedAfterDelay(start, calls, config) ==> AdoptedAfterDelay(start, calls + [c], config)
  {
    if PendingComesFrom(start, calls, p) {
      var k :| 0 <= k < |calls| && QueuedAt(start, calls, k, p.newConfig) && Run(start, calls[..k]).now == p.queuedAt;
      assert (calls + [c])[..k] == calls[..k];
      assert QueuedAt(start, calls + [c], k, p.newConfig);
    }
    if AdoptedAfterDelay(start, calls, config) {
      var k, m :| 0 <= k < m < |calls| && QueuedAt(start, calls, k, config) && Adopts(start, calls, m, Run(start, calls[..k]).now);
      assert (calls + [c])[..k] == calls[..k] && (calls + [c])[..m] == calls[..m];
      assert QueuedAt(start, calls + [c], k, config) && Adopts(start, calls + [c], m, Run(start, (calls + [c])[..k]).now);
    }
  }

  /** Only `queue_config_update` makes an update pending, and only `execute_config_update` adopts one. */
  lemma ConfigOfStep(s: State, c: Call)
    requires ConfigSound(s)
    ensures var s' := Settled(s, Outcome(s, c));
            && (s'.config != s.config ==>
                  c.CallExecuteConfig? && s.pending.Some? && s'.config == s.pending.value.newConfig
                  && s.now >= s.pending.value.queuedAt + CONFIG_TIMELOCK_SECONDS)
            && (s'.pending.Some? && s'.pending != s.pending ==>
                  c.CallQueueConfig? && Outcome(s, c).Ok? && s'.pending.value.newConfig == c.newConfig && s'.pending.value.queuedAt == s.now)
  {
    hide Gather, AddToStatus, RemoveFromStatus, ProposalPasses, RemoveDelegator, AddDelegator, WrapI128, WithTally;
  }

  /** Main result: whatever the run, the configuration in force is the initial one, or one that an
      earlier call queued and a call at least 48 hours later put in force. */
  lemma {:induction false} ConfigsChangeOnlyAfterDelay(start: State, calls: seq<Call>)
    requires Inv(start) && start.pending.None?
    ensures var s := Run(start, calls);
            && Inv(s)
            && (s.pending.Some? ==> PendingComesFrom(start, calls, s.pending.value))
            && (s.config == start.config || AdoptedAfterDelay(start, calls, s.config))
  {
    if calls != [] {
      hide Outcome, Inv;
      var n := |calls| - 1;
      var before, c := calls[..n], calls[n];
      ConfigsChangeOnlyAfterDelay(start, before);
      var s, s' := Run(start, before), Run(start, calls);
      StepKeeps(s, c);
      assert ConfigSound(s) by { InvGivesConfig(s); }
      ConfigOfStep(s, c);
      assert calls == before + [c];
      if s'.pending.Some? {
        ProvenanceExtends(start, before, c, s'.pending.value, s'.config);
        if s'.pending != s.pending {
          assert QueuedAt(start, calls, n, s'.pending.value.newConfig);
        }
      }
      if s'.config != s.config {
        var p := s.pending.value;
        var k :| 0 <= k < |before| && QueuedAt(start, before, k, p.newConfig) && Run(start, before[..k]).now == p.queuedAt;
        assert calls[..k] == before[..k];
        assert QueuedAt(start, calls, k, s'.config) && Adopts(start, calls, n, Run(start, calls[..k]).now);
      } else if s.config != start.config {
        ProvenanceExtends(start, before, c, PendingConfig(s.config, 0, 0), s'.config);
      }
    }
  }

  lemma InvGivesConfig(s: State)
    requires Inv(s)
    ensures ConfigSound(s)
  {
  }

  // ----- cancelling before votes are cast -----

  ghost predicate HasVotes(s: State, id: uint64) {
    exists a :: (id, a) in s.votes
  }

  lemma TotalOfPositivePowers(s: State, id: uint64, choice: Choice)
    requires forall a :: (id, a) in s.votes ==> s.votes[(id, a)].power > 0
    ensures Tally(s.votes, id, choice) >= 0
    ensures Tally(s.votes, id, choice) > 0 <==> exists a :: (id, a) in s.votes && s.votes[(id, a)].choice == choice
  {
    var powers := Powers(s.votes, id, choice);
    assert forall k :: k in powers ==> k == (id, k.1) && powers[k] > 0;
    SumMapNonNegative(powers);
    if a :| (id, a) in s.votes && s.votes[(id, a)].choice == choice {
      assert (id, a) in powers;
      SumMapAtLeast(powers, (id, a));
    } else {
      assert powers == map[];
    }
  }

  /** The sum of all vote powers on record for a proposal. */
  ghost function TotalPower(votes: Votes, id: uint64): int {
    Tally(votes, id, For) + Tally(votes, id, Against) + Tally(votes, id, Abstain)
  }

  lemma WrappingTwiceIsWrappingOnce(x: int, y: int)
    ensures WrapI128(WrapI128(x) + y) == WrapI128(x + y)
  {
    WrapIsExactWhenItFits(x);
    var k := (WrapI128(x) - x) / (U128_MAX + 1);
    assert WrapI128(x) == x + k * (U128_MAX + 1);
    assert (x + y - I128_MIN + k * (U128_MAX + 1)) % (U128_MAX + 1) == (x + y - I128_MIN) % (U128_MAX + 1);
  }

  /** An active proposal can be cancelled by its proposer exactly when the i128 sum of the recorded powers
      wraps to a value that is not positive. So cancelling is closed exactly by the first vote if and only
      if that wrapped sum is positive as soon as there is a vote. */
  lemma CancelOnlyBeforeVotes(s: State, caller: Address, id: uint64)
    requires Reachable(s) && id in s.proposals
    requires s.proposals[id].status == Active && s.proposals[id].proposer == caller
    ensures CancelProposal(s, caller, id).Ok? <==> WrapI128(TotalPower(s.votes, id)) <= 0
    ensures (CancelProposal(s, caller, id).Ok? <==> !HasVotes(s, id))
            <==> (HasVotes(s, id) ==> WrapI128(TotalPower(s.votes, id)) > 0)
  {
    hide TotalPower;
    CastTotalIsTotalPower(s, id);
    hide CastTotal;
    if !HasVotes(s, id) {
      NoVotesNoPower(s, id);
      WrapIsExactWhenItFits(0);
    }
  }

  lemma CastTotalIsTotalPower(s: State, id: uint64)
    requires Reachable(s) && id in s.proposals
    ensures CastTotal(s.proposals[id]) == WrapI128(TotalPower(s.votes, id))
  {
    hide Reachable, WrapI128, Tally;
    var p := s.proposals[id];
    TalliesAreSumsOfRecords(s, id, For);
    TalliesAreSumsOfRecords(s, id, Against);
    TalliesAreSumsOfRecords(s, id, Abstain);
    assert p.votesFor == TallyOf(p, For) && p.votesAgainst == TallyOf(p, Against) && p.votesAbstain == TallyOf(p, Abstain);
    WrappingTwiceIsWrappingOnce(p.votesFor + p.votesAgainst, p.votesAbstain);
  }

  lemma NoVotesNoPower(s: State, id: uint64)
    requires !HasVotes(s, id)
    ensures TotalPower(s.votes, id) == 0
  {
    assert Powers(s.votes, id, For) == map[];
    assert Powers(s.votes, id, Against) == map[];
    assert Powers(s.votes, id, Abstain) == map[];
  }

  /** When every recorded power is positive, only an overflow reopens cancelling: it is open before the
      first vote, and again while the powers sum to more than I128_MAX but at most 2^128. */
  lemma PositiveVotesCloseCancelUntilTheyWrap(s: State, caller: Address, id: uint64)
    requires Reachable(s) && id in s.proposals
    requires s.proposals[id].status == Active && s.proposals[id].proposer == caller
    requires forall a :: (id, a) in s.votes ==> s.votes[(id, a)].power > 0
    ensures CancelProposal(s, caller, id).Ok? <==> !HasVotes(s, id) || I128_MAX < TotalPower(s.votes, id) <= U128_MAX + 1
  {
    hide Reachable, CancelProposal, Powers;
    CancelOnlyBeforeVotes(s, caller, id);
    forall choice: Choice
      ensures 0 <= Tally(s.votes, id, choice) <= I128_MAX
      ensures Tally(s.votes, id, choice) > 0 <==> exists a :: (id, a) in s.votes && s.votes[(id, a)].choice == choice
    {
      TalliesAreSumsOfRecords(s, id, choice);
      TotalOfPositivePowers(s, id, choice);
    }
    if a :| (id, a) in s.votes {
      assert Tally(s.votes, id, s.votes[(id, a)].choice) > 0;
      assert TotalPower(s.votes, id) > 0;
    }
    assert 0 <= TotalPower(s.votes, id) <= 3 * I128_MAX;
  }

  lemma StartIsReachable(admin: Address, config: Config, now: uint64)
    requires Init(admin, config, now).Ok?
    ensures Reachable(Init(admin, config, now).value)
  {
    assert Run(Init(admin, config, now).value, []) == Init(admin, config, now).value;
  }

  lemma StepIsReachable(s: State, c: Call)
    requires Reachable(s)
    ensures Reachable(Settled(s, Outcome(s, c)))
  {
    hide Outcome;
    var admin, config, now, calls :|
      Init(admin, config, now).Ok? && s == Run(Init(admin, config, now).value, calls);
    assert (calls + [c])[..|calls|] == calls;
    assert Run(Init(admin, config, now).value, calls + [c]) == Settled(s, Outcome(s, c));
  }

  lemma LoneVote(s: State, voter: Address, id: uint64, choice: Choice, power: Address -> int128)
    requires id in s.proposals && s.proposals[id].status == Active && s.now <= s.proposals[id].votingEndsAt
    requires (id, voter) !in s.votes && voter !in s.delegation && DelegatorsOf(s.delegators, voter) == []
    requires FitsI128(TallyOf(s.proposals[id], choice) + power(voter))
    ensures CastVote(s, voter, id, choice, power)
            == Ok(s.(votes := s.votes[(id, voter) := VoteRecord(choice, power(voter), s.now)],
                     proposals := s.proposals[id := WithTally(s.proposals[id], choice,
                                                              TallyOf(s.proposals[id], choice) + power(voter))]))
  {
  }

  /** The state after a vote of this power by somebody without delegators. */
  function Voted(s: State, voter: Address, id: uint64, choice: Choice, power: int128): State
    requires id in s.proposals && FitsI128(TallyOf(s.proposals[id], choice) + power)
  {
    s.(votes := s.votes[(id, voter) := VoteRecord(choice, power, s.now)],
       proposals := s.proposals[id := WithTally(s.proposals[id], choice, TallyOf(s.proposals[id], choice) + power)])
  }

  lemma VotedIsReachable(s: State, voter: Address, id: uint64, choice: Choice, power: int128)
    requires Reachable(s) && id in s.proposals && s.proposals[id].status == Active && s.now <= s.proposals[id].votingEndsAt
    requires (id, voter) !in s.votes && voter !in s.delegation && DelegatorsOf(s.delegators, voter) == []
    requires FitsI128(TallyOf(s.proposals[id], choice) + power)
    ensures Reachable(Voted(s, voter, id, choice, power))
  {
    hide Reachable, CastVote;
    LoneVote(s, voter, id, choice, _ => power);
    StepIsReachable(s, CallVote(voter, id, choice, _ => power));
  }

  lemma TickedIsReachable(s: State, now: uint64)
    requires Reachable(s) && s.now <= now
    ensures Reachable(s.(now := now))
  {
    hide Reachable;
    StepIsReachable(s, Tick(now - s.now));
  }

  /** A proposal open for voting until time 10. */
  function Proposed(): State {
    CreateProposal(Init(9, Config(1, 10, 10, 1, 5000, 1), 0).value, 1, 5).value
  }

  lemma ProposedIsReachable()
    ensures Reachable(Proposed())
  {
    hide Reachable;
    StartIsReachable(9, Config(1, 10, 10, 1, 5000, 1), 0);
    StepIsReachable(Init(9, Config(1, 10, 10, 1, 5000, 1), 0).value, CallCreate(1, 5));
  }

  /** A vote without power does not block cancellation: a reachable proposal with a vote on record that
      its proposer can still cancel. */
  lemma ZeroPowerVoteDoesNotBlockCancel() returns (s: State)
    ensures Reachable(s) && HasVotes(s, 0) && CancelProposal(s, 1, 0).Ok?
  {
    hide Reachable, WrapI128;
    ProposedIsReachable();
    VotedIsReachable(Proposed(), 2, 0, For, 0);
    s := Voted(Proposed(), 2, 0, For, 0);
    assert (0, 2) in s.votes;
    WrapIsExactWhenItFits(0);
  }

  /** Neither do votes whose sum overflows: two votes of the greatest power, one for and one against, leave
      a reachable proposal whose unchecked sum is -2, and its proposer can still cancel it. */
  lemma OverflowingVotesDoNotBlockCancel() returns (s: State)
    ensures Reachable(s) && 0 in s.proposals && CancelProposal(s, 1, 0).Ok?
    ensures (0, 2) in s.votes && s.votes[(0, 2)] == VoteRecord(For, I128_MAX, s.now)
    ensures (0, 3) in s.votes && s.votes[(0, 3)] == VoteRecord(Against, I128_MAX, s.now)
    ensures CastTotal(s.proposals[0]) == -2
  {
    hide Reachable, WrapI128;
    ProposedIsReachable();
    VotedIsReachable(Proposed(), 2, 0, For, I128_MAX);
    var pro := Voted(Proposed(), 2, 0, For, I128_MAX);
    VotedIsReachable(pro, 3, 0, Against, I128_MAX);
    s := Voted(pro, 3, 0, Against, I128_MAX);
    TwoGreatestWrap();
  }

  lemma TwoGreatestWrap()
    ensures WrapI128(WrapI128(I128_MAX + I128_MAX) + 0) == -2
  {
  }

  const MOST: int128 := I128_MAX / BPS_DENOM

  /** One more For vote can keep a passing proposal from being finalized: with it the product that compares the
      share overflows, and finalization is refused. */
  lemma ExtraForVoteStopsFinalization() returns (before: State, after: State)
    ensures Reachable(before) && 0 in before.proposals && ProposalPasses(before.proposals[0], before.config) == Ok(true)
    ensures Reachable(after) && after.config == before.config
    ensures 0 in after.proposals && after.proposals[0] == before.proposals[0].(votesFor := before.proposals[0].votesFor + 1)
    ensures after.now > after.proposals[0].votingEndsAt && FinalizeProposal(after, 0) == Err(InvalidConfig)
  {
    hide Reachable, ProposalPasses;
    var s := Proposed();
    ProposedIsReachable();
    MostPasses(s.proposals[0], s.config, MOST);
    VotedIsReachable(s, 2, 0, For, MOST);
    before := Voted(s, 2, 0, For, MOST);
    VotedIsReachable(before, 3, 0, For, 1);
    TickedIsReachable(Voted(before, 3, 0, For, 1), 11);
    after := Voted(before, 3, 0, For, 1).(now := 11);
  }

  /** A ten-thousandth of the range still passes; one more overflows. */
  lemma MostPasses(p: Proposal, c: Config, most: int128)
    requires p.votesFor == p.votesAgainst == p.votesAbstain == 0 && c == Config(1, 10, 10, 1, 5000, 1) && most == I128_MAX / BPS_DENOM
    ensures ProposalPasses(p.(votesFor := most), c) == Ok(true)
    ensures ProposalPasses(p.(votesFor := most + 1), c) == Err(InvalidConfig)
  {
    assert TruncDiv(most * BPS_DENOM, most) == BPS_DENOM;
  }
}
