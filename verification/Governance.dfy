/** Proposals, votes, delegation and configuration timelocks (packages/governance/src/contract.rs):
    each entry point as a storage transition. */
module Governance {
  import opened Common

  const BPS_DENOM := 10_000
  const CONFIG_TIMELOCK_SECONDS := 172_800
  const PROPOSAL_EXECUTION_WINDOW := 604_800

  datatype Status = Draft | Active | Succeeded | Queued | Executed | Defeated | Cancelled | Expired

  datatype Choice = For | Against | Abstain

  datatype Config = Config(
    proposalDeposit: int128,
    votingPeriodSeconds: uint64,
    timelockSeconds: uint64,
    quorumVotes: uint32,
    passThresholdBps: uint32,
    minProposalDeposit: int128)

  datatype Proposal = Proposal(
    id: uint64,
    proposer: Address,
    depositAmount: int128,
    status: Status,
    createdAt: uint64,
    votingEndsAt: uint64,
    timelockEndsAt: uint64,
    votesFor: int128,
    votesAgainst: int128,
    votesAbstain: int128)

  datatype VoteRecord = VoteRecord(choice: Choice, power: int128, timestamp: uint64)

  datatype PendingConfig = PendingConfig(newConfig: Config, queuedAt: uint64, executableAt: uint64)

  datatype GovernanceError =
    | Unauthorized
    | InvalidConfig
    | InsufficientDeposit
    | ProposalNotFound
    | VotingNotActive
    | VotingEnded
    | AlreadyVoted
    | TimelockNotElapsed
    | ProposalNotSucceeded
    | ProposalNotDraftOrActive
    | NotProposer
    | VotingAlreadyStarted
    | ConfigUpdateAlreadyQueued
    | NoPendingConfigUpdate
    | CircularDelegation
    | ProposalNotExpired
    | HostTrap

  /** When a proposal was finalized, and the configuration in force then. */
  datatype Finalization = Finalization(at: uint64, config: Config)

  type Votes = map<(uint64, Address), VoteRecord>
  type StatusIndex = map<Status, seq<uint64>>
  type DelegatorLists = map<Address, seq<Address>>

  /** Storage, the ledger clock, and the history of finalizations and executions. */
  datatype State = State(
    admin: Address,
    config: Config,
    pending: Option<PendingConfig>,
    count: uint64,
    proposals: map<uint64, Proposal>,
    votes: Votes,
    deposits: map<uint64, int128>,
    byStatus: StatusIndex,
    delegation: map<Address, Address>,
    delegators: DelegatorLists,
    now: uint64,
    finalizations: map<uint64, Finalization>,
    executions: map<uint64, uint64>)

  predicate ValidConfig(c: Config) {
    0 <= c.minProposalDeposit <= c.proposalDeposit && 0 < c.passThresholdBps <= BPS_DENOM
  }

  function Init(admin: Address, config: Config, now: uint64): Result<State, GovernanceError> {
    if !ValidConfig(config) then Err(InvalidConfig) else
    Ok(State(admin, config, None, 0, map[], map[], map[], map[], map[], map[], now, map[], map[]))
  }

  // ----- the status index -----

  function Listed(index: StatusIndex, status: Status): seq<uint64> {
    if status in index then index[status] else []
  }

  function AddToStatus(index: StatusIndex, status: Status, id: uint64): StatusIndex {
    index[status := Listed(index, status) + [id]]
  }

  function RemoveFromStatus(index: StatusIndex, status: Status, id: uint64): StatusIndex {
    index[status := Without(Listed(index, status), id)]
  }

  /** The proposal stored under its new status, and relisted. */
  function Restate(s: State, p: Proposal, status: Status): State {
    s.(proposals := s.proposals[p.id := p.(status := status)],
       byStatus := AddToStatus(RemoveFromStatus(s.byStatus, p.status, p.id), status, p.id))
  }

  // ----- proposals and votes -----

  function CreateProposal(s: State, proposer: Address, deposit: int128): Result<State, GovernanceError> {
    if deposit < s.config.minProposalDeposit || deposit <= 0 then Err(InsufficientDeposit) else
    if s.now + s.config.votingPeriodSeconds > U64_MAX then Err(InvalidConfig) else
    if s.count + 1 > U64_MAX then Err(InvalidConfig) else
    var p := Proposal(s.count, proposer, deposit, Active, s.now, s.now + s.config.votingPeriodSeconds, 0, 0, 0, 0);
    Ok(s.(proposals := s.proposals[s.count := p],
          deposits := s.deposits[s.count := deposit],
          count := s.count + 1,
          byStatus := AddToStatus(s.byStatus, Active, s.count)))
  }

  datatype Gathered = Gathered(votes: Votes, total: int128)

  /** The loop over a voter's delegators: each that has no record yet is recorded under the same
      choice, and its power added to the total. */
  function Gather(g: Gathered, id: uint64, delegators: seq<Address>, choice: Choice, power: Address -> int128, now: uint64)
    : Result<Gathered, GovernanceError>
    decreases |delegators|
  {
    if delegators == [] then Ok(g)
    else
      var d := delegators[0];
      if (id, d) in g.votes then Gather(g, id, delegators[1..], choice, power, now)
      else if !FitsI128(g.total + power(d)) then Err(InvalidConfig)
      else Gather(Gathered(g.votes[(id, d) := VoteRecord(choice, power(d), now)], g.total + power(d)),
                  id, delegators[1..], choice, power, now)
  }

  function TallyOf(p: Proposal, choice: Choice): int128 {
    match choice
    case For => p.votesFor
    case Against => p.votesAgainst
    case Abstain => p.votesAbstain
  }

  function WithTally(p: Proposal, choice: Choice, tally: int128): Proposal {
    match choice
    case For => p.(votesFor := tally)
    case Against => p.(votesAgainst := tally)
    case Abstain => p.(votesAbstain := tally)
  }

  /** `power` is what the staking contract, or the flat rule, reports for each address at this moment. */
  function CastVote(s: State, voter: Address, id: uint64, choice: Choice, power: Address -> int128): Result<State, GovernanceError> {
    if id !in s.proposals then Err(ProposalNotFound) else
    var p := s.proposals[id];
    if p.status != Active then Err(VotingNotActive) else
    if s.now > p.votingEndsAt then Err(VotingEnded) else
    if (id, voter) in s.votes then Err(AlreadyVoted) else
    if voter in s.delegation then Err(Unauthorized) else
    var own := Gathered(s.votes[(id, voter) := VoteRecord(choice, power(voter), s.now)], power(voter));
    var all :- Gather(own, id, DelegatorsOf(s.delegators, voter), choice, power, s.now);
    if !FitsI128(TallyOf(p, choice) + all.total) then Err(InvalidConfig) else
    Ok(s.(votes := all.votes, proposals := s.proposals[id := WithTally(p, choice, TallyOf(p, choice) + all.total)]))
  }

  // ----- delegation -----

  function DelegatorsOf(lists: DelegatorLists, a: Address): seq<Address> {
    if a in lists then lists[a] else []
  }

  function AddDelegator(lists: DelegatorLists, delegatee: Address, delegator: Address): DelegatorLists {
    lists[delegatee := DelegatorsOf(lists, delegatee) + [delegator]]
  }

  function RemoveDelegator(lists: DelegatorLists, delegatee: Address, delegator: Address): DelegatorLists {
    lists[delegatee := Without(DelegatorsOf(lists, delegatee), delegator)]
  }

  function Delegate(s: State, delegator: Address, delegatee: Address): Result<State, GovernanceError> {
    if delegator == delegatee then Err(CircularDelegation) else
    if delegatee in s.delegation then Err(CircularDelegation) else
    if |DelegatorsOf(s.delegators, delegator)| > 0 then Err(CircularDelegation) else
    var lists := if delegator in s.delegation then RemoveDelegator(s.delegators, s.delegation[delegator], delegator)
                 else s.delegators;
    Ok(s.(delegation := s.delegation[delegator := delegatee], delegators := AddDelegator(lists, delegatee, delegator)))
  }

  function RevokeDelegation(s: State, delegator: Address): Result<State, GovernanceError> {
    if delegator !in s.delegation then Ok(s) else
    Ok(s.(delegators := RemoveDelegator(s.delegators, s.delegation[delegator], delegator),
          delegation := s.delegation - {delegator}))
  }

  // ----- the life of a proposal after voting -----

  function ProposalPasses(p: Proposal, c: Config): Result<bool, GovernanceError> {
    var directional := p.votesFor + p.votesAgainst;
    if !FitsI128(directional) then Err(InvalidConfig) else
    if !FitsI128(directional + p.votesAbstain) then Err(InvalidConfig) else
    if directional + p.votesAbstain < c.quorumVotes || directional <= 0 then Ok(false) else
    if !FitsI128(p.votesFor * BPS_DENOM) then Err(InvalidConfig) else
    Ok(TruncDiv(p.votesFor * BPS_DENOM, directional) >= c.passThresholdBps)
  }

  function FinalizeProposal(s: State, id: uint64): Result<State, GovernanceError> {
    if id !in s.proposals then Err(ProposalNotFound) else
    var p := s.proposals[id];
    if p.status != Active then Err(VotingNotActive) else
    if s.now <= p.votingEndsAt then Err(VotingNotActive) else
    var passed :- ProposalPasses(p, s.config);
    var s1 := s.(deposits := s.deposits - {id}, finalizations := s.finalizations[p.id := Finalization(s.now, s.config)]);
    if !passed then Ok(Restate(s1, p, Defeated)) else
    if s.now + s.config.timelockSeconds > U64_MAX then Err(InvalidConfig) else
    Ok(Restate(s1, p.(timelockEndsAt := s.now + s.config.timelockSeconds), Queued))
  }

  /** `hostOk` says whether the invoked target contract returned rather than trapped. */
  function ExecuteProposal(s: State, id: uint64, hostOk: bool): Result<State, GovernanceError> {
    if id !in s.proposals then Err(ProposalNotFound) else
    var p := s.proposals[id];
    if p.status != Queued then Err(ProposalNotSucceeded) else
    if s.now < p.timelockEndsAt then Err(TimelockNotElapsed) else
    if !hostOk then Err(HostTrap) else
    Ok(Restate(s.(executions := s.executions[p.id := s.now]), p, Executed))
  }

  /** The unchecked sum by which `cancel_proposal` decides whether voting has begun. */
  function CastTotal(p: Proposal): int128 {
    WrapI128(WrapI128(p.votesFor + p.votesAgainst) + p.votesAbstain)
  }

  function CancelProposal(s: State, caller: Address, id: uint64): Result<State, GovernanceError> {
    if id !in s.proposals then Err(ProposalNotFound) else
    var p := s.proposals[id];
    if p.proposer != caller then Err(NotProposer) else
    if p.status != Active then Err(ProposalNotDraftOrActive) else
    if CastTotal(p) > 0 then Err(VotingAlreadyStarted) else
    Ok(Restate(s.(deposits := s.deposits - {id}), p, Cancelled))
  }

  /** The deadline after which an unexecuted proposal expires: seven days after its last gate. */
  function ExpiryBase(p: Proposal): Option<uint64> {
    match p.status
    case Active => Some(p.votingEndsAt)
    case Queued => Some(p.timelockEndsAt)
    case _ => None
  }

  function ExpireProposal(s: State, id: uint64): Result<State, GovernanceError> {
    if id !in s.proposals then Err(ProposalNotFound) else
    var p := s.proposals[id];
    if ExpiryBase(p).None? then Err(ProposalNotExpired) else
    if ExpiryBase(p).value + PROPOSAL_EXECUTION_WINDOW > U64_MAX then Err(InvalidConfig) else
    if s.now <= ExpiryBase(p).value + PROPOSAL_EXECUTION_WINDOW then Err(ProposalNotExpired) else
    Ok(Restate(s.(deposits := s.deposits - {id}), p, Expired))
  }

  // ----- configuration updates -----

  function QueueConfigUpdate(s: State, caller: Address, newConfig: Config): Result<State, GovernanceError> {
    if caller != s.admin then Err(Unauthorized) else
    if s.pending.Some? then Err(ConfigUpdateAlreadyQueued) else
    if !ValidConfig(newConfig) then Err(InvalidConfig) else
    if s.now + CONFIG_TIMELOCK_SECONDS > U64_MAX then Err(InvalidConfig) else
    Ok(s.(pending := Some(PendingConfig(newConfig, s.now, s.now + CONFIG_TIMELOCK_SECONDS))))
  }

  function ExecuteConfigUpdate(s: State): Result<State, GovernanceError> {
    if s.pending.None? then Err(NoPendingConfigUpdate) else
    if s.now < s.pending.value.executableAt then Err(TimelockNotElapsed) else
    Ok(s.(config := s.pending.value.newConfig, pending := None))
  }

  function CancelConfigUpdate(s: State, caller: Address): Result<State, GovernanceError> {
    if caller != s.admin then Err(Unauthorized) else
    if s.pending.None? then Err(NoPendingConfigUpdate) else
    Ok(s.(pending := None))
  }

  datatype Call =
    | CallCreate(proposer: Address, deposit: int128)
    | CallVote(voter: Address, id: uint64, choice: Choice, power: Address -> int128)
    | CallDelegate(delegator: Address, delegatee: Address)
    | CallRevoke(delegator: Address)
    | CallFinalize(id: uint64)
    | CallExecute(id: uint64, hostOk: bool)
    | CallCancel(caller: Address, id: uint64)
    | CallExpire(id: uint64)
    | CallQueueConfig(caller: Address, newConfig: Config)
    | CallExecuteConfig
    | CallCancelConfig(caller: Address)
    | Tick(elapsed: nat)

  function Outcome(s: State, c: Call): Result<State, GovernanceError> {
    match c
    case CallCreate(p, d) => CreateProposal(s, p, d)
    case CallVote(v, id, choice, power) => CastVote(s, v, id, choice, power)
    case CallDelegate(a, b) => Delegate(s, a, b)
    case CallRevoke(a) => RevokeDelegation(s, a)
    case CallFinalize(id) => FinalizeProposal(s, id)
    case CallExecute(id, hostOk) => ExecuteProposal(s, id, hostOk)
    case CallCancel(caller, id) => CancelProposal(s, caller, id)
    case CallExpire(id) => ExpireProposal(s, id)
    case CallQueueConfig(caller, c) => QueueConfigUpdate(s, caller, c)
    case CallExecuteConfig => ExecuteConfigUpdate(s)
    case CallCancelConfig(caller) => CancelConfigUpdate(s, caller)
    case Tick(d) => Ok(if s.now + d <= U64_MAX then s.(now := s.now + d) else s)
  }

  function Run(s: State, calls: seq<Call>): State {
    if calls == [] then s
    else
      var before := Run(s, calls[..|calls| - 1]);
      Settled(before, Outcome(before, calls[|calls| - 1]))
  }
}
