/** The contribution window: when acceptance and enforcement agree that it has closed, and what its closing
    means for the rounds that follow. */
module CircleWindow {
  import opened Common
  import opened Vrf
  import opened CircleTypes
  import opened Payout
  import opened CircleOps
  import opened CircleInvariant
  import opened CircleProofs
  import opened CircleRuns
  import opened CircleLedger

  /** The deadline does not fit the clock, or the grace period after a passed deadline does not. */
  predicate WindowOverflows(c: Circle, now: uint64) {
    && c.deadlineSeconds > 0
    && (|| c.startedAt + c.deadlineSeconds > U64_MAX
        || (c.graceSeconds > 0 && now > c.startedAt + c.deadlineSeconds
            && c.startedAt + c.deadlineSeconds + c.graceSeconds > U64_MAX))
  }

  /** A closed window refuses every contribution; the two sides agree exactly when nothing overflows. */
  lemma AcceptanceMatchesEnforcement(c: Circle, now: uint64)
    ensures WindowClosed(c, now) ==> Timeliness(c, now) == Err(PaymentDeadlinePassed)
    ensures (Timeliness(c, now).Err? <==> WindowClosed(c, now)) <==> !WindowOverflows(c, now)
    ensures Timeliness(c, now) == Ok(true) <==>
              c.deadlineSeconds == 0 || (c.startedAt + c.deadlineSeconds <= U64_MAX && now <= c.startedAt + c.deadlineSeconds)
  {
  }

  /** A contribution once refused for its time is refused at every later time. */
  lemma RefusalIsForGood(c: Circle, now: uint64, later: uint64)
    requires now <= later && Timeliness(c, now).Err?
    ensures Timeliness(c, later).Err?
  {
  }

  /** While the deadline itself overflows, nobody can contribute and nobody can sweep, at any time. */
  lemma OverflowingDeadlineWedges(hash: Hash, s: Storage, member: Address, amount: int128, round: uint32, yieldOk: bool, hostOk: bool)
    requires s.circle.deadlineSeconds > 0 && s.circle.startedAt + s.circle.deadlineSeconds > U64_MAX
    ensures Contribute(s, member, amount, round, hostOk).Err?
    ensures CheckContributionDeadline(hash, s, yieldOk, hostOk).Err?
  {
    hide Admitted, Penalize, Logged, TriggerInternal, Swept;
  }

  // ----- one window for all rounds -----

  /** The circle has started, and contributions come too late. */
  predicate Shut(s: Storage) {
    s.circle.status != Pending && Timeliness(s.circle, s.now).Err?
  }

  /** The step leaves the log and everything the window depends on alone, and does not unstart the circle. */
  predicate SameWindow(s: Storage, s': Storage) {
    && s'.contributions == s.contributions && s'.now == s.now
    && s'.circle.startedAt == s.circle.startedAt && s'.circle.deadlineSeconds == s.circle.deadlineSeconds
    && s'.circle.graceSeconds == s.circle.graceSeconds
    && (s'.circle.status == Pending ==> s.circle.status == Pending)
  }

  lemma PayingKeepsWindow(s: Storage, recipient: Address, yieldOk: bool, hostOk: bool)
    requires SettlePool(s, recipient, yieldOk, hostOk).Ok?
    ensures SameWindow(s, SettlePool(s, recipient, yieldOk, hostOk).value)
  {
    hide Distribute, RecordRoundFee, RoundTotal, MarkPaid;
  }

  lemma TriggerKeepsWindow(hash: Hash, s: Storage, round: uint32, yieldOk: bool, hostOk: bool)
    requires TriggerInternal(hash, s, round, yieldOk, hostOk).Ok?
    ensures SameWindow(s, TriggerInternal(hash, s, round, yieldOk, hostOk).value)
  {
    hide Resolve, SettlePool, WindowClosed, Awaiting, TooYoung;
    var res := Resolve(hash, s, round).value;
    PayingKeepsWindow(s.(vrf := res.vrf, winners := res.winners), res.recipient, yieldOk, hostOk);
  }

  lemma SettlingKeepsWindow(hash: Hash, s: Storage, c: Call)
    requires Settling(c) && Outcome(hash, s, c).Ok?
    ensures SameWindow(s, Outcome(hash, s, c).value)
  {
    hide TriggerInternal, Swept, WindowClosed;
    match c
    case CallTrigger(_, round, yieldOk, hostOk) => TriggerKeepsWindow(hash, s, round, yieldOk, hostOk);
    case CallDeadline(yieldOk, hostOk) =>
      SweptKeepsFolk(s);
      TriggerKeepsWindow(hash, Swept(s, s.circle.currentRound), s.circle.currentRound, yieldOk, hostOk);
  }

  lemma {:induction false} BatchKeepsWindow(s: Storage, recipients: seq<Address>, amounts: seq<int128>, i: nat)
    requires i <= |recipients| == |amounts| && BatchUpTo(s, recipients, amounts, i).Ok?
    ensures SameWindow(s, BatchUpTo(s, recipients, amounts, i).value)
  {
    if i > 0 {
      hide BatchFee, BatchNet, IndexOfMember;
      BatchKeepsWindow(s, recipients, amounts, i - 1);
    }
  }

  /** Every call but those that seat, contribute, settle or let time pass. */
  predicate Aside(c: Call) {
    !c.CallJoin? && !c.CallInvite? && !c.CallContribute? && !c.Tick? && !Settling(c)
  }

  lemma AsideKeepsWindow(hash: Hash, s: Storage, c: Call)
    requires Aside(c)
    ensures SameWindow(s, Settled(s, Outcome(hash, s, c)))
  {
    hide RefundDrain, AsRefunds, BidsOutside, CancelRefund, WithDeparted, WithReported, ReportUpTo, IsInactiveMember, IsActiveMember,
         HasVoted, HasBid, AnyBid, DefaultedFirst, Cleared, BatchUpTo, Join, BatchInvite, Contribute, TriggerInternal,
         CheckContributionDeadline, TriggerPayout;
    if c.CallReport? && ReportUpTo(s, c.member, c.round, |s.members|).Ok? {
      ReportUpToIsQuiet(s, c.member, c.round, |s.members|);
    } else if c.CallBatch? && |c.recipients| == |c.amounts| && BatchUpTo(s, c.recipients, c.amounts, |c.recipients|).Ok? {
      BatchKeepsWindow(s, c.recipients, c.amounts, |c.recipients|);
    }
  }

  lemma SeatingKeepsWindow(hash: Hash, s: Storage, c: Call)
    requires (c.CallJoin? || c.CallInvite?) && s.circle.status != Pending
    ensures SameWindow(s, Settled(s, Outcome(hash, s, c)))
  {
    hide InviteUpTo, MarkStatus, IndexOfMember;
  }

  lemma ShutRefuses(s: Storage, member: Address, amount: int128, round: uint32, hostOk: bool)
    requires Shut(s)
    ensures Contribute(s, member, amount, round, hostOk).Err?
  {
    hide Admitted, Penalize, Logged, Timeliness;
  }

  lemma ShutStaysShut(hash: Hash, s: Storage, c: Call)
    requires Shut(s)
    ensures Shut(Settled(s, Outcome(hash, s, c))) && Settled(s, Outcome(hash, s, c)).contributions == s.contributions
  {
    hide Outcome, SameWindow, Timeliness, Contribute;
    if c.Tick? {
      TickingKeepsLog(hash, s, c);
      RefusalIsForGood(s.circle, s.now, Ticked(s, c.elapsed, c.ledgers).now);
    } else if c.CallContribute? {
      ShutRefuses(s, c.member, c.amount, c.round, c.hostOk);
      OutcomeOfContribution(hash, s, c);
    } else {
      WindowStays(hash, s, c);
      WindowKeepsShut(s, Settled(s, Outcome(hash, s, c)));
    }
  }

  lemma TickingKeepsLog(hash: Hash, s: Storage, c: Call)
    requires c.Tick?
    ensures Outcome(hash, s, c) == Ok(Ticked(s, c.elapsed, c.ledgers))
  {
  }

  lemma OutcomeOfContribution(hash: Hash, s: Storage, c: Call)
    requires c.CallContribute?
    ensures Outcome(hash, s, c) == Contribute(s, c.member, c.amount, c.round, c.hostOk)
  {
  }

  lemma WindowKeepsShut(s: Storage, s': Storage)
    requires Shut(s) && SameWindow(s, s')
    ensures Shut(s') && s'.contributions == s.contributions
  {
  }

  lemma WindowStays(hash: Hash, s: Storage, c: Call)
    requires !c.Tick? && !c.CallContribute? && s.circle.status != Pending
    ensures SameWindow(s, Settled(s, Outcome(hash, s, c)))
  {
    hide Outcome;
    if Aside(c) {
      AsideKeepsWindow(hash, s, c);
    } else if !Settling(c) {
      SeatingKeepsWindow(hash, s, c);
    } else if Outcome(hash, s, c).Ok? {
      SettlingKeepsWindow(hash, s, c);
    }
  }

  /** The deadline counts from the circle's start, not from the round's: once contributions come too late
      they do so for good, and over any further run the log stays as it is. */
  lemma {:induction false} NothingIsContributedAfterTheWindow(hash: Hash, s: Storage, calls: seq<Call>)
    requires Shut(s)
    ensures Shut(Run(hash, s, calls)) && Run(hash, s, calls).contributions == s.contributions
  {
    if calls != [] {
      hide Outcome, Shut;
      NothingIsContributedAfterTheWindow(hash, s, calls[..|calls| - 1]);
      ShutStaysShut(hash, Run(hash, s, calls[..|calls| - 1]), calls[|calls| - 1]);
    }
  }

  lemma {:induction false} NoTotalWithoutEntries(log: seq<Contribution>, round: uint32)
    requires forall i :: 0 <= i < |log| ==> log[i].round != round
    ensures ScanTotal(log, round) == 0
  {
    if log != [] {
      NoTotalWithoutEntries(log[..|log| - 1], round);
    }
  }

  /** So every round after the one that was open then is settled, if at all, with an empty pool, and pays
      nothing. */
  lemma RoundsAfterTheWindowPayNothing(hash: Hash, s: Storage, calls: seq<Call>, round: uint32)
    requires Reachable(hash, s) && Shut(s)
    requires s.circle.currentRound < round < |Run(hash, s, calls).history.settlements|
    ensures var x := Run(hash, s, calls).history.settlements[round];
            x.pool == x.net == x.fee == x.paid == 0
  {
    var s' := Run(hash, s, calls);
    NothingIsContributedAfterTheWindow(hash, s, calls);
    LogReachesCurrentRound(hash, s);
    NoTotalWithoutEntries(s.contributions, round);
    hide Shut;
    RunIsReachable(hash, s, calls);
    hide Reachable, Run, LedgersSound, Received, SumMap;
    BooksBalance(hash, s');
    assert SettlementSound(s'.history.settlements[round]);
  }

  lemma LogReachesCurrentRound(hash: Hash, s: Storage)
    requires Reachable(hash, s)
    ensures forall i :: 0 <= i < |s.contributions| ==> s.contributions[i].round <= s.circle.currentRound
  {
    ReachableStatesAreSound(hash, s);
    hide SeatsSound, MarksSound, VrfSound, BooksSound, BidsSound, CachesMatch;
  }
}
