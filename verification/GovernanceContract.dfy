/** The governance contract performing its entry points in place, each proved against its transition. */
module GovernanceContract {
  import opened Common
  import opened Governance

  class Contract {
    const admin: Address
    var config: Config
    var pending: Option<PendingConfig>
    var count: uint64
    var proposals: map<uint64, Proposal>
    var votes: Votes
    var deposits: map<uint64, int128>
    var byStatus: StatusIndex
    var delegation: map<Address, Address>
    var delegators: DelegatorLists
    var now: uint64
    ghost var finalizations: map<uint64, Finalization>
    ghost var executions: map<uint64, uint64>

    ghost function View(): State
      reads this
    {
      State(admin, config, pending, count, proposals, votes, deposits, byStatus, delegation, delegators, now,
            finalizations, executions)
    }

    constructor (admin: Address, config: Config, now: uint64)
      requires ValidConfig(config)
      ensures Init(admin, config, now) == Ok(View())
    {
      this.admin, this.config, this.now := admin, config, now;
      pending, count, proposals, votes, deposits, byStatus := None, 0, map[], map[], map[], map[];
      delegation, delegators, finalizations, executions := map[], map[], map[], map[];
    }

    method AddProposalToStatusIndex(status: Status, id: uint64)
      modifies this`byStatus
      ensures byStatus == AddToStatus(old(byStatus), status, id)
    {
      var list := if status in byStatus then byStatus[status] else [];
      byStatus := byStatus[status := list + [id]];
    }

    /** The loop that rebuilds one status list without `id`. */
    method RemoveProposalFromStatusIndex(status: Status, id: uint64)
      modifies this`byStatus
      ensures byStatus == RemoveFromStatus(old(byStatus), status, id)
    {
      var list := if status in byStatus then byStatus[status] else [];
      var kept := [];
      for i := 0 to |list|
        invariant kept == Without(list[..i], id)
      {
        assert list[..i + 1][..i] == list[..i];
        if list[i] != id {
          kept := kept + [list[i]];
        }
      }
      assert list[..|list|] == list;
      byStatus := byStatus[status := kept];
    }

    /** Moves a proposal between two status lists and stores it under the new status. */
    method ChangeStatus(p: Proposal, status: Status)
      modifies this`byStatus, this`proposals
      ensures byStatus == AddToStatus(RemoveFromStatus(old(byStatus), p.status, p.id), status, p.id)
      ensures proposals == old(proposals)[p.id := p.(status := status)]
    {
      RemoveProposalFromStatusIndex(p.status, p.id);
      AddProposalToStatusIndex(status, p.id);
      proposals := proposals[p.id := p.(status := status)];
    }

    method CreateProposal(proposer: Address, deposit: int128) returns (r: Result<(), GovernanceError>)
      modifies this
      ensures Committed(old(View()), Governance.CreateProposal(old(View()), proposer, deposit), View(), r)
    {
      if deposit < config.minProposalDeposit || deposit <= 0 {
        return Err(InsufficientDeposit);
      }
      :- Need(now + config.votingPeriodSeconds <= U64_MAX, InvalidConfig);
      :- Need(count + 1 <= U64_MAX, InvalidConfig);
      var id := count;
      proposals := proposals[id := Proposal(id, proposer, deposit, Active, now, now + config.votingPeriodSeconds, 0, 0, 0, 0)];
      deposits := deposits[id := deposit];
      count := id + 1;
      AddProposalToStatusIndex(Active, id);
      return Ok(());
    }

    /** The loop over the voter's delegators: each without a record gets one, and adds to the total. */
    method GatherDelegators(own: Gathered, id: uint64, list: seq<Address>, choice: Choice, power: Address -> int128)
      returns (r: Result<Gathered, GovernanceError>)
      ensures r == Gather(own, id, list, choice, power, now)
    {
      var recorded: Votes, total: int128 := own.votes, own.total;
      var i := 0;
      while i < |list|
        invariant i <= |list|
        invariant Gather(own, id, list, choice, power, now) == Gather(Gathered(recorded, total), id, list[i..], choice, power, now)
      {
        var d := list[i];
        assert list[i..][1..] == list[i + 1..];
        if (id, d) !in recorded {
          :- Need(FitsI128(total + power(d)), InvalidConfig);
          recorded := recorded[(id, d) := VoteRecord(choice, power(d), now)];
          total := total + power(d);
        }
        i := i + 1;
      }
      return Ok(Gathered(recorded, total));
    }

    /** Records the voter and every delegator without a record, then adds their joint power to the tally. */
    method CastVote(voter: Address, id: uint64, choice: Choice, power: Address -> int128) returns (r: Result<(), GovernanceError>)
      modifies this
      ensures Committed(old(View()), Governance.CastVote(old(View()), voter, id, choice, power), View(), r)
    {
      if id !in proposals {
        return Err(ProposalNotFound);
      }
      var p := proposals[id];
      :- Need(p.status == Active, VotingNotActive);
      :- Need(now <= p.votingEndsAt, VotingEnded);
      :- Need((id, voter) !in votes, AlreadyVoted);
      :- Need(voter !in delegation, Unauthorized);
      var own := Gathered(votes[(id, voter) := VoteRecord(choice, power(voter), now)], power(voter));
      var all :- GatherDelegators(own, id, if voter in delegators then delegators[voter] else [], choice, power);
      :- Need(FitsI128(TallyOf(p, choice) + all.total), InvalidConfig);
      hide Gather;
      match choice {
        case For => p := p.(votesFor := p.votesFor + all.total);
        case Against => p := p.(votesAgainst := p.votesAgainst + all.total);
        case Abstain => p := p.(votesAbstain := p.votesAbstain + all.total);
      }
      votes := all.votes;
      proposals := proposals[id := p];
      return Ok(());
    }

    method AddDelegator(delegatee: Address, delegator: Address)
      modifies this`delegators
      ensures delegators == Governance.AddDelegator(old(delegators), delegatee, delegator)
    {
      var list := if delegatee in delegators then delegators[delegatee] else [];
      delegators := delegators[delegatee := list + [delegator]];
    }

    /** The loop that rebuilds a delegatee's list without one delegator. */
    method RemoveDelegator(delegatee: Address, delegator: Address)
      modifies this`delegators
      ensures delegators == Governance.RemoveDelegator(old(delegators), delegatee, delegator)
    {
      var list := if delegatee in delegators then delegators[delegatee] else [];
      var kept := [];
      for i := 0 to |list|
        invariant kept == Without(list[..i], delegator)
      {
        assert list[..i + 1][..i] == list[..i];
        if list[i] != delegator {
          kept := kept + [list[i]];
        }
      }
      assert list[..|list|] == list;
      delegators := delegators[delegatee := kept];
    }

    method Delegate(delegator: Address, delegatee: Address) returns (r: Result<(), GovernanceError>)
      modifies this
      ensures Committed(old(View()), Governance.Delegate(old(View()), delegator, delegatee), View(), r)
    {
      if delegator == delegatee {
        return Err(CircularDelegation);
      }
      :- Need(delegatee !in delegation, CircularDelegation);
      var own := if delegator in delegators then delegators[delegator] else [];
      :- Need(|own| == 0, CircularDelegation);
      if delegator in delegation {
        RemoveDelegator(delegation[delegator], delegator);
      }
      delegation := delegation[delegator := delegatee];
      AddDelegator(delegatee, delegator);
      return Ok(());
    }

    method RevokeDelegation(delegator: Address) returns (r: Result<(), GovernanceError>)
      modifies this
      ensures Committed(old(View()), Governance.RevokeDelegation(old(View()), delegator), View(), r)
    {
      if delegator in delegation {
        RemoveDelegator(delegation[delegator], delegator);
        delegation := delegation - {delegator};
      }
      return Ok(());
    }

    method FinalizeProposal(id: uint64) returns (r: Result<(), GovernanceError>)
      modifies this
      ensures Committed(old(View()), Governance.FinalizeProposal(old(View()), id), View(), r)
    {
      if id !in proposals {
        return Err(ProposalNotFound);
      }
      var p := proposals[id];
      :- Need(p.status == Active, VotingNotActive);
      :- Need(now > p.votingEndsAt, VotingNotActive);
      var passed :- ProposalPasses(p, config);
      if passed {
        :- Need(now + config.timelockSeconds <= U64_MAX, InvalidConfig);
        ChangeStatus(p.(timelockEndsAt := now + config.timelockSeconds), Queued);
      } else {
        ChangeStatus(p, Defeated);
      }
      deposits := deposits - {id};
      finalizations := finalizations[p.id := Finalization(now, config)];
      return Ok(());
    }

    method ExecuteProposal(id: uint64, hostOk: bool) returns (r: Result<(), GovernanceError>)
      modifies this
      ensures Committed(old(View()), Governance.ExecuteProposal(old(View()), id, hostOk), View(), r)
    {
      if id !in proposals {
        return Err(ProposalNotFound);
      }
      var p := proposals[id];
      :- Need(p.status == Queued, ProposalNotSucceeded);
      :- Need(now >= p.timelockEndsAt, TimelockNotElapsed);
      :- Need(hostOk, HostTrap);
      ChangeStatus(p, Executed);
      executions := executions[p.id := now];
      return Ok(());
    }

    method CancelProposal(caller: Address, id: uint64) returns (r: Result<(), GovernanceError>)
      modifies this
      ensures Committed(old(View()), Governance.CancelProposal(old(View()), caller, id), View(), r)
    {
      if id !in proposals {
        return Err(ProposalNotFound);
      }
      var p := proposals[id];
      :- Need(p.proposer == caller, NotProposer);
      :- Need(p.status == Active, ProposalNotDraftOrActive);
      :- Need(CastTotal(p) <= 0, VotingAlreadyStarted);
      ChangeStatus(p, Cancelled);
      deposits := deposits - {id};
      return Ok(());
    }

    method ExpireProposal(id: uint64) returns (r: Result<(), GovernanceError>)
      modifies this
      ensures Committed(old(View()), Governance.ExpireProposal(old(View()), id), View(), r)
    {
      if id !in proposals {
        return Err(ProposalNotFound);
      }
      var p := proposals[id];
      :- Need(p.status == Active || p.status == Queued, ProposalNotExpired);
      var gate := if p.status == Active then p.votingEndsAt else p.timelockEndsAt;
      :- Need(gate + PROPOSAL_EXECUTION_WINDOW <= U64_MAX, InvalidConfig);
      :- Need(now > gate + PROPOSAL_EXECUTION_WINDOW, ProposalNotExpired);
      ChangeStatus(p, Expired);
      deposits := deposits - {id};
      return Ok(());
    }

    method QueueConfigUpdate(caller: Address, newConfig: Config) returns (r: Result<(), GovernanceError>)
      modifies this
      ensures Committed(old(View()), Governance.QueueConfigUpdate(old(View()), caller, newConfig), View(), r)
    {
      if caller != admin {
        return Err(Unauthorized);
      }
      :- Need(pending.None?, ConfigUpdateAlreadyQueued);
      :- Need(ValidConfig(newConfig), InvalidConfig);
      :- Need(now + CONFIG_TIMELOCK_SECONDS <= U64_MAX, InvalidConfig);
      pending := Some(PendingConfig(newConfig, now, now + CONFIG_TIMELOCK_SECONDS));
      return Ok(());
    }

    method ExecuteConfigUpdate() returns (r: Result<(), GovernanceError>)
      modifies this
      ensures Committed(old(View()), Governance.ExecuteConfigUpdate(old(View())), View(), r)
    {
      if pending.None? {
        return Err(NoPendingConfigUpdate);
      }
      :- Need(now >= pending.value.executableAt, TimelockNotElapsed);
      config := pending.value.newConfig;
      pending := None;
      return Ok(());
    }

    method CancelConfigUpdate(caller: Address) returns (r: Result<(), GovernanceError>)
      modifies this
      ensures Committed(old(View()), Governance.CancelConfigUpdate(old(View()), caller), View(), r)
    {
      if caller != admin {
        return Err(Unauthorized);
      }
      :- Need(pending.Some?, NoPendingConfigUpdate);
      pending := None;
      return Ok(());
    }
  }
}
