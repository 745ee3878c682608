/** The entry points of a savings circle (packages/circle/src/contract.rs) as storage transitions.
    `hostOk` says whether the token, treasury and collateral calls of the invocation went through;
    when one traps the host rolls the whole invocation back. */
module CircleOps {
  import opened Common
  import opened SafeMath
  import opened Bitmap
  import opened Vrf
  import opened CircleTypes
  import opened Payout

  // ----- creation and membership -----

  datatype CircleConfig = CircleConfig(
    organizer: Address,
    contributionAmount: int128,
    maxMembers: uint32,
    payoutType: uint32,
    totalRounds: uint32,
    deadlineSeconds: uint64,
    minScore: uint32,
    collateral: int128,
    penaltyBps: uint32,
    graceSeconds: uint64,
    maxStrikes: uint32,
    minDuration: uint64)

  function PayoutTypeOf(code: uint32): Option<PayoutType> {
    match code
    case 0 => Some(Random)
    case 1 => Some(Fixed)
    case 2 => Some(Auction)
    case 3 => Some(Vote)
    case _ => None
  }

  /** Who deploys a circle, and the ledger it happens on. */
  datatype Launch = Launch(admin: Address, factory: Address, now: uint64, sequence: uint32)

  function Init(l: Launch, c: CircleConfig): Result<Storage, CircleError> {
    if c.maxMembers < 2 || c.contributionAmount < 0 || c.totalRounds == 0 || PayoutTypeOf(c.payoutType).None?
      then Err(InvalidAmount) else
    if c.maxMembers > MAX_CIRCLE_MEMBERS then Err(CircleSizeExceedsTier) else
    var circle := Circle(c.organizer, c.contributionAmount, c.maxMembers, 0, PayoutTypeOf(c.payoutType).value, c.totalRounds,
                         0, Pending, 0, l.now, c.deadlineSeconds, c.minScore, c.collateral, c.penaltyBps, c.graceSeconds,
                         c.maxStrikes, c.minDuration, 0, 0, 0);
    Ok(Storage(circle, l.admin, l.factory, [], map[], [], {}, map[], map[], map[], [], map[], [], [], map[], {}, map[], None, 0, None,
               VrfState(None, 0), l.now, l.sequence, History([], [], 0, [], [])))
  }

  function NewMember(a: Address, position: uint32, now: uint64): Member {
    Member(a, position, now, 0, InGoodStanding, 0, 0, 0)
  }

  /** `score` is the member's reputation and `permitted` whether the allowlist admits them. */
  function Join(s: Storage, member: Address, score: uint32, permitted: bool, hostOk: bool): Result<Storage, CircleError> {
    var c := s.circle;
    if c.status != Pending then Err(NotActive) else
    if score < c.minScore then Err(InsufficientMoiScore) else
    if !permitted then Err(AllowlistNotPermitted) else
    if IndexOfMember(s.members, member, 0).Some? then Err(AlreadyMember) else
    if |s.members| >= c.maxMembers then Err(CircleFull) else
    if c.collateral > 0 && !hostOk then Err(HostTrap) else
    if c.memberCount + 1 > U32_MAX then Err(InvalidAmount) else
    var full := c.memberCount + 1 >= c.maxMembers;
    var c' := c.(memberCount := c.memberCount + 1,
                 status := if full then Active else c.status,
                 startedAt := if full then s.now else c.startedAt);
    Ok(s.(circle := c',
          members := s.members + [NewMember(member, |s.members|, s.now)],
          memberStatus := s.memberStatus[member := InGoodStanding]))
  }

  /** The list after appending the first `i` invitees, each checked against the list so far. */
  function InviteUpTo(c: Circle, members: seq<Member>, invitees: seq<Address>, score: Address -> uint32, now: uint64, i: nat)
    : Result<seq<Member>, CircleError>
    requires i <= |invitees|
  {
    if i == 0 then Ok(members)
    else
      var list :- InviteUpTo(c, members, invitees, score, now, i - 1);
      var a := invitees[i - 1];
      if score(a) < c.minScore then Err(InsufficientMoiScore) else
      if IndexOfMember(list, a, 0).Some? then Err(AlreadyMember) else
      if |list| >= c.maxMembers then Err(CircleFull) else
      Ok(list + [NewMember(a, |list|, now)])
  }

  function MarkStatus(cache: StatusCache, addresses: seq<Address>, status: MemberStatus): StatusCache {
    if addresses == [] then cache
    else MarkStatus(cache, addresses[..|addresses| - 1], status)[addresses[|addresses| - 1] := status]
  }

  function BatchInvite(s: Storage, caller: Address, invitees: seq<Address>, score: Address -> uint32): Result<Storage, CircleError> {
    var c := s.circle;
    if caller != c.organizer then Err(NotOrganizer) else
    if c.status == Disputed || c.status == Completed then Err(NotActive) else
    var list :- InviteUpTo(c, s.members, invitees, score, s.now, |invitees|);
    var full := |list| >= c.maxMembers && c.status == Pending;
    var c' := c.(memberCount := |list|,
                 status := if full then Active else c.status,
                 startedAt := if full then s.now else c.startedAt);
    Ok(s.(circle := c', members := list, memberStatus := MarkStatus(s.memberStatus, invitees, InGoodStanding)))
  }

  // ----- the contribution log and the caches over it -----

  /** The addresses the log shows for a round, in order. */
  function ScanContributors(log: seq<Contribution>, round: uint32): seq<Address> {
    if log == [] then []
    else
      var c := log[|log| - 1];
      ScanContributors(log[..|log| - 1], round) + if c.round == round then [c.member] else []
  }

  /** The log's total for a round, added up from the front with saturation. */
  function ScanTotal(log: seq<Contribution>, round: uint32): int128 {
    if log == [] then 0
    else
      var c := log[|log| - 1];
      var earlier := ScanTotal(log[..|log| - 1], round);
      if c.round == round then SatAddI128(earlier, c.amount) else earlier
  }

  function RoundContributors(s: Storage, round: uint32): seq<Address> {
    if round in s.roundContributors then s.roundContributors[round] else ScanContributors(s.contributions, round)
  }

  function RoundTotal(s: Storage, round: uint32): int128 {
    if round in s.roundTotals then s.roundTotals[round] else ScanTotal(s.contributions, round)
  }

  function StruckIn(book: StrikeBook, round: uint32, member: Address): bool {
    round in book && member in book[round] && book[round][member] > 0
  }

  function RecordStrike(book: StrikeBook, round: uint32, member: Address): StrikeBook {
    var strikes := if round in book then book[round] else map[];
    var current := if member in strikes then strikes[member] else 0;
    book[round := strikes[member := Min(current + 1, U32_MAX)]]
  }

  function Deadline(c: Circle): Option<uint64> {
    if c.deadlineSeconds == 0 || c.startedAt + c.deadlineSeconds > U64_MAX then None else Some(c.startedAt + c.deadlineSeconds)
  }

  function ForfeitTime(c: Circle): Option<uint64> {
    if Deadline(c).None? then None
    else if c.graceSeconds == 0 then Deadline(c)
    else if Deadline(c).value + c.graceSeconds > U64_MAX then None
    else Some(Deadline(c).value + c.graceSeconds)
  }

  predicate WindowClosed(c: Circle, now: uint64) {
    ForfeitTime(c).Some? && now > ForfeitTime(c).value
  }

  /** Whether a contribution made now is on time, late within the grace period, or refused. */
  function Timeliness(c: Circle, now: uint64): Result<bool, CircleError> {
    if c.deadlineSeconds == 0 then Ok(true) else
    if c.startedAt + c.deadlineSeconds > U64_MAX then Err(InvalidAmount) else
    var deadline := c.startedAt + c.deadlineSeconds;
    if now <= deadline then Ok(true) else
    if c.graceSeconds == 0 then Err(PaymentDeadlinePassed) else
    if deadline + c.graceSeconds > U64_MAX then Err(InvalidAmount) else
    if now <= deadline + c.graceSeconds then Ok(false) else Err(PaymentDeadlinePassed)
  }

  function LedgerOf(ledgers: FeeLedgers, round: uint32): FeeLedger {
    if round in ledgers then ledgers[round] else FeeLedger(0, 0, 0)
  }

  function RecordRoundFee(ledgers: FeeLedgers, round: uint32, payoutFee: int128, lateFee: int128): Result<FeeLedgers, CircleError> {
    var l := LedgerOf(ledgers, round);
    if !FitsI128(l.payoutFee + payoutFee) then Err(InvalidAmount) else
    if !FitsI128(l.latePenaltyFee + lateFee) then Err(InvalidAmount) else
    if !FitsI128(l.payoutFee + payoutFee + l.latePenaltyFee + lateFee) then Err(InvalidAmount) else
    Ok(ledgers[round := FeeLedger(l.payoutFee + payoutFee, l.latePenaltyFee + lateFee,
                                  l.payoutFee + payoutFee + l.latePenaltyFee + lateFee)])
  }

  /** The status cache after the check at the start of `contribute`, which falls back to the list. */
  function CheckedStatus(s: Storage, member: Address): Result<StatusCache, CircleError> {
    if member in s.memberStatus then
      if s.memberStatus[member] != InGoodStanding then Err(InvalidMemberStatus) else Ok(s.memberStatus)
    else
      var i := IndexOfMember(s.members, member, 0);
      if i.None? then Err(NotMember) else
      if s.members[i.value].status != InGoodStanding then Err(InvalidMemberStatus) else
      Ok(s.memberStatus[member := InGoodStanding])
  }

  /** The late penalty on a contribution, and the circle and fee ledgers that record it. */
  datatype Penalized = Penalized(totalFees: int128, feeLedgers: FeeLedgers)

  function Penalize(s: Storage, amount: int128, round: uint32, onTime: bool): Result<Penalized, CircleError> {
    var c := s.circle;
    if onTime || c.penaltyBps == 0 then Ok(Penalized(c.totalFees, s.feeLedgers)) else
    var penalty := CalculatePercentage(amount, c.penaltyBps);
    if penalty.Err? then Err(InvalidAmount) else
    if penalty.value <= 0 then Ok(Penalized(c.totalFees, s.feeLedgers)) else
    if !FitsI128(c.totalFees + penalty.value) then Err(InvalidAmount) else
    var ledgers :- RecordRoundFee(s.feeLedgers, round, 0, penalty.value);
    Ok(Penalized(c.totalFees + penalty.value, ledgers))
  }

  function WithTotal(totals: map<uint32, int128>, c: Contribution): map<uint32, int128> {
    totals[c.round := SatAddI128(if c.round in totals then totals[c.round] else 0, c.amount)]
  }

  function WithContributor(lists: map<uint32, seq<Address>>, c: Contribution): map<uint32, seq<Address>> {
    lists[c.round := (if c.round in lists then lists[c.round] else []) + [c.member]]
  }

  /** The log and its caches with one more contribution. */
  function Logged(s: Storage, entry: Contribution): Storage {
    s.(contributions := s.contributions + [entry],
       memberContributed := s.memberContributed + {(entry.member, entry.round)},
       roundTotals := WithTotal(s.roundTotals, entry),
       roundContributors := WithContributor(s.roundContributors, entry))
  }

  /** The checks on who contributes what to which round; yields the status cache to store. */
  function Admitted(s: Storage, member: Address, amount: int128, round: uint32): Result<StatusCache, CircleError> {
    if s.circle.status != Active then Err(NotActive) else
    if StruckIn(s.roundStrikes, round, member) then Err(AlreadyStruck) else
    if round != s.circle.currentRound then Err(RoundNotCurrent) else
    if round in s.scheduled then Err(PayoutAlreadyScheduled) else
    if amount != s.circle.contributionAmount then Err(ContributionMismatch) else
    var cache :- CheckedStatus(s, member);
    if (member, round) in s.memberContributed then Err(AlreadyContributed) else Ok(cache)
  }

  function Contribute(s: Storage, member: Address, amount: int128, round: uint32, hostOk: bool): Result<Storage, CircleError> {
    var cache :- Admitted(s, member, amount, round);
    var onTime :- Timeliness(s.circle, s.now);
    if !hostOk then Err(HostTrap) else
    var p :- Penalize(s, amount, round, onTime);
    var s1 := s.(memberStatus := cache, circle := s.circle.(totalFees := p.totalFees), feeLedgers := p.feeLedgers);
    Ok(Logged(s1, Contribution(member, round, amount, s.now, onTime)))
  }

  // ----- the deadline sweep -----

  /** What the sweep over the member list changes. */
  datatype Sweep = Sweep(members: seq<Member>, memberStatus: StatusCache, roundStrikes: StrikeBook)

  function StruckMember(m: Member, maxStrikes: uint32): Member {
    var strikes := Min(m.strikes + 1, U32_MAX);
    m.(strikes := strikes, status := if strikes >= maxStrikes then Defaulted else m.status)
  }

  /** The sweep over the first `i` members: active members without a contribution are struck. */
  function SweepUpTo(w: Sweep, maxStrikes: uint32, round: uint32, contributors: seq<Address>, i: nat): (r: Sweep)
    requires i <= |w.members|
    ensures |r.members| == |w.members|
  {
    if i == 0 then w
    else
      var before := SweepUpTo(w, maxStrikes, round, contributors, i - 1);
      var m := before.members[i - 1];
      if m.status != InGoodStanding || m.address in contributors then before
      else
        var struck := StruckMember(m, maxStrikes);
        Sweep(before.members[i - 1 := struck],
              if struck.status == Defaulted then before.memberStatus[m.address := Defaulted] else before.memberStatus,
              RecordStrike(before.roundStrikes, round, m.address))
  }

  function Swept(s: Storage, round: uint32): Storage {
    var w := SweepUpTo(Sweep(s.members, s.memberStatus, s.roundStrikes), s.circle.maxStrikes, round,
                       RoundContributors(s, round), |s.members|);
    s.(members := w.members, memberStatus := w.memberStatus, roundStrikes := w.roundStrikes)
  }

  function Awaiting(members: seq<Member>, contributors: seq<Address>): nat {
    if members == [] then 0
    else
      var m := members[|members| - 1];
      Awaiting(members[..|members| - 1], contributors)
      + if m.status == InGoodStanding && m.address !in contributors then 1 else 0
  }

  // ----- settling a round -----

  /** Who is resolved, with the generator and the recorded auction winners afterwards. */
  datatype Resolution = Resolution(recipient: Address, vrf: VrfState, winners: map<uint32, Address>)

  ghost function Resolve(hash: Hash, s: Storage, round: uint32): Result<Resolution, CircleError> {
    match s.circle.payoutType
    case Random =>
      var p :- ResolveRandom(hash, s.circle, s.members, s.vrf, round);
      Ok(Resolution(p.recipient, p.vrf, s.winners))
    case Fixed =>
      var a :- ResolveFixed(s.circle, s.members, round);
      Ok(Resolution(a, s.vrf, s.winners))
    case Auction =>
      var a :- ResolveAuction(s.circle, s.members, s.bids, round);
      Ok(Resolution(a, s.vrf, s.winners[round := a]))
    case Vote =>
      var a :- ResolveVote(s.circle, s.members, s.votes, round);
      Ok(Resolution(a, s.vrf, s.winners))
  }

  /** The bitmap with the bit of the first member at this address set. */
  function MarkPaid(bitmap: nat, members: seq<Member>, a: Address): nat {
    var i := IndexOfMember(members, a, 0);
    if i.None? then bitmap else SetBit(bitmap, members[i.value].position)
  }

  /** Time weights of a round's contributions, in saturating u128 arithmetic. */
  datatype Weights = Weights(of: map<Address, uint128>, total: uint128)

  function WeightOf(c: Contribution, now: uint64): uint128 {
    SatMulU128(AsU128(c.amount), SatSub(now, c.timestamp))
  }

  function Weigh(log: seq<Contribution>, round: uint32, now: uint64): Weights {
    if log == [] then Weights(map[], 0)
    else
      var c := log[|log| - 1];
      var earlier := Weigh(log[..|log| - 1], round, now);
      if c.round != round then earlier
      else
        var w := WeightOf(c, now);
        var prev := if c.member in earlier.of then earlier.of[c.member] else 0;
        Weights(earlier.of[c.member := SatAddU128(prev, w)], SatAddU128(earlier.total, w))
  }

  /** A member's share of `net`, given what has been handed out so far. */
  function Share(net: int128, w: uint128, total: uint128, distributed: int): int128
    requires total > 0 && net > 0
  {
    if distributed == 0 && w == total then net else WrapI128(SatMulU128(net, w) / total)
  }

  /** `received` credited to every member with this address, over the first `i` list entries. */
  function CreditUpTo(members: seq<Member>, a: Address, amount: int128, i: nat): (r: Result<seq<Member>, CircleError>)
    requires i <= |members|
    ensures r.Ok? ==> |r.value| == |members|
  {
    if i == 0 then Ok(members)
    else
      var before :- CreditUpTo(members, a, amount, i - 1);
      var m := before[i - 1];
      if m.address != a then Ok(before) else
      if !FitsI128(m.totalReceived + amount) then Err(InvalidAmount) else
      Ok(before[i - 1 := m.(totalReceived := m.totalReceived + amount)])
  }

  function Credit(members: seq<Member>, a: Address, amount: int128): Result<seq<Member>, CircleError> {
    CreditUpTo(members, a, amount, |members|)
  }

  /** The distribution loop's state: members credited, amount handed out, payout records. */
  datatype Dist = Dist(members: seq<Member>, distributed: int128, payouts: seq<PayoutRecord>)

  datatype RoundInfo = RoundInfo(round: uint32, payoutType: PayoutType, now: uint64)

  function PayShare(d: Dist, a: Address, share: int128, info: RoundInfo): (r: Result<Dist, CircleError>)
    ensures r.Ok? ==> |r.value.members| == |d.members|
  {
    if !FitsI128(d.distributed + share) then Err(InvalidAmount) else
    var members :- Credit(d.members, a, share);
    Ok(Dist(members, d.distributed + share,
            d.payouts + [PayoutRecord(a, info.round, share, 0, info.payoutType, info.now)]))
  }

  /** The distribution over the first `i` members. */
  function DistributeUpTo(d: Dist, weights: Weights, net: int128, info: RoundInfo, i: nat): (r: Result<Dist, CircleError>)
    requires i <= |d.members| && net > 0
    ensures r.Ok? ==> |r.value.members| == |d.members|
  {
    if i == 0 then Ok(d)
    else
      var before :- DistributeUpTo(d, weights, net, info, i - 1);
      var a := before.members[i - 1].address;
      if a !in weights.of || weights.total == 0 then Ok(before) else
      var share := Share(net, weights.of[a], weights.total, before.distributed);
      if share <= 0 then Ok(before) else PayShare(before, a, share, info)
  }

  /** Everything paid out of `net`: time-weighted shares for a random circle, then the rest as dust to
      the resolved recipient. */
  function Distribute(s: Storage, recipient: Address, net: int128, fee: int128, info: RoundInfo): (r: Result<Dist, CircleError>)
    requires net > 0
    ensures r.Ok? ==> |r.value.members| == |s.members|
  {
    var head := s.payouts + [PayoutRecord(recipient, info.round, net, fee, info.payoutType, info.now)];
    var start := Dist(s.members, 0, head);
    var shared :- if info.payoutType == Random
                  then DistributeUpTo(start, Weigh(s.contributions, info.round, info.now), net, info, |s.members|)
                  else Ok(start);
    if shared.distributed >= net then Ok(shared) else
    if !FitsI128(net - shared.distributed) then Err(InvalidAmount) else
    PayShare(shared, recipient, net - shared.distributed, info)
  }

  function Advance(c: Circle): Circle
    requires c.currentRound + 1 <= U32_MAX
  {
    c.(currentRound := c.currentRound + 1, status := if c.currentRound + 1 >= c.totalRounds then Completed else c.status)
  }

  /** A round whose pool nets to nothing is settled with an empty payout record. */
  function SettleEmpty(s: Storage, recipient: Address, pool: int128): Result<Storage, CircleError> {
    var c := s.circle;
    if c.currentRound + 1 > U32_MAX then Err(InvalidAmount) else
    Ok(s.(circle := Advance(c).(bitmap := MarkPaid(c.bitmap, s.members, recipient)),
          payouts := s.payouts + [PayoutRecord(recipient, c.currentRound, 0, 0, c.payoutType, s.now)],
          history := s.history.(settlements := s.history.settlements + [Settlement(recipient, pool, 0, 0, 0)])))
  }

  /** Closes the round and books what was paid. */
  function Book(s: Storage, x: Settlement, d: Dist, ledgers: FeeLedgers, hostOk: bool): Result<Storage, CircleError> {
    var c := s.circle;
    if c.currentRound + 1 > U32_MAX then Err(InvalidAmount) else
    if !FitsI128(c.totalPayouts + x.paid) then Err(InvalidAmount) else
    if !FitsI128(c.totalFees + x.fee) then Err(InvalidAmount) else
    if !hostOk then Err(HostTrap) else
    Ok(s.(circle := Advance(c).(bitmap := MarkPaid(c.bitmap, s.members, x.recipient),
                                totalPayouts := c.totalPayouts + x.paid,
                                totalFees := c.totalFees + x.fee),
          members := d.members,
          payouts := d.payouts,
          feeLedgers := ledgers,
          history := s.history.(settlements := s.history.settlements + [x])))
  }

  function SettlePaid(s: Storage, recipient: Address, pool: int128, net: int128, fee: int128, hostOk: bool): Result<Storage, CircleError>
    requires net > 0
  {
    var c := s.circle;
    var d :- Distribute(s, recipient, net, fee, RoundInfo(c.currentRound, c.payoutType, s.now));
    var ledgers :- if fee > 0 then RecordRoundFee(s.feeLedgers, c.currentRound, fee, 0) else Ok(s.feeLedgers);
    Book(s, Settlement(recipient, pool, net, fee, d.distributed), d, ledgers, hostOk)
  }

  /** The part of a settlement after the recipient is known and nobody is still owed a chance to pay. */
  function SettlePool(s: Storage, recipient: Address, yieldOk: bool, hostOk: bool): Result<Storage, CircleError> {
    var pool := RoundTotal(s, s.circle.currentRound);
    var split := ApplyFee(pool, s.feeBps);
    if split.Err? then Err(InvalidAmount) else
    if split.value.net <= 0 then SettleEmpty(s, recipient, pool) else
    if !yieldOk then Err(OracleUnavailable) else
    SettlePaid(s, recipient, pool, split.value.net, split.value.fee, hostOk)
  }

  predicate TooYoung(c: Circle, now: uint64) {
    c.minDuration > 0 && SatSub(now, c.createdAt) < c.minDuration
  }

  ghost function TriggerInternal(hash: Hash, s: Storage, round: uint32, yieldOk: bool, hostOk: bool): Result<Storage, CircleError> {
    var c := s.circle;
    if c.status != Active then Err(NotActive) else
    if round != c.currentRound then Err(RoundNotCurrent) else
    if TooYoung(c, s.now) then Err(CircleDurationTooShort) else
    var res :- Resolve(hash, s, round);
    if !WindowClosed(c, s.now) && Awaiting(s.members, RoundContributors(s, round)) > 0 then Err(InvalidContributionRound) else
    SettlePool(s.(vrf := res.vrf, winners := res.winners), res.recipient, yieldOk, hostOk)
  }

  ghost function TriggerPayout(hash: Hash, s: Storage, caller: Address, round: uint32, yieldOk: bool, hostOk: bool): Result<Storage, CircleError> {
    if caller != s.circle.organizer && caller != s.admin then Err(Unauthorized) else
    TriggerInternal(hash, s, round, yieldOk, hostOk)
  }

  ghost function CheckContributionDeadline(hash: Hash, s: Storage, yieldOk: bool, hostOk: bool): Result<Storage, CircleError> {
    var c := s.circle;
    if c.status != Active then Err(NotActive) else
    if c.currentRound >= c.totalRounds then Err(InvalidRound) else
    if !WindowClosed(c, s.now) then Err(DeadlineNotPassed) else
    TriggerInternal(hash, Swept(s, c.currentRound), c.currentRound, yieldOk, hostOk)
  }

  // ----- batch payouts -----

  /** The fee of a batch entry, with the source's unchecked product and difference. */
  function BatchFee(amount: int128, feeBps: uint32): int128 {
    if feeBps > 0 then TruncDiv(WrapI128(amount * feeBps), 10_000) else 0
  }

  function BatchNet(amount: int128, feeBps: uint32): int128 {
    WrapI128(amount - BatchFee(amount, feeBps))
  }

  /** One batch entry: a member's bit must be clear and is set; a stranger is simply paid. */
  function PayBatchEntry(s: Storage, recipient: Address, amount: int128): Result<Storage, CircleError> {
    if amount <= 0 then Err(InvalidAmount) else
    var i := IndexOfMember(s.members, recipient, 0);
    if i.Some? && Bit(s.circle.bitmap, s.members[i.value].position) then Err(PayoutAlreadyExecuted) else
    var fee, net := BatchFee(amount, s.feeBps), BatchNet(amount, s.feeBps);
    if net < 0 then Err(HostTrap) else
    if fee > 0 && s.treasury.None? then Err(NotInitialized) else
    var paid := s.(payouts := s.payouts + [PayoutRecord(recipient, s.circle.currentRound, net, fee, s.circle.payoutType, s.now)]);
    if i.None? then Ok(paid.(history := s.history.(strangersPaid := s.history.strangersPaid + [recipient]))) else
    var m := s.members[i.value];
    if !FitsI128(m.totalReceived + net) then Err(InvalidAmount) else
    Ok(paid.(circle := s.circle.(bitmap := SetBit(s.circle.bitmap, m.position)),
             members := s.members[i.value := m.(totalReceived := m.totalReceived + net)],
             history := s.history.(batchPaid := s.history.batchPaid + [recipient], batchNet := s.history.batchNet + net)))
  }

  function BatchUpTo(s: Storage, recipients: seq<Address>, amounts: seq<int128>, i: nat): Result<Storage, CircleError>
    requires i <= |recipients| == |amounts|
  {
    if i == 0 then Ok(s)
    else
      var before :- BatchUpTo(s, recipients, amounts, i - 1);
      PayBatchEntry(before, recipients[i - 1], amounts[i - 1])
  }

  function BatchPayout(s: Storage, caller: Address, recipients: seq<Address>, amounts: seq<int128>, round: uint32, hostOk: bool)
    : Result<Storage, CircleError>
  {
    var c := s.circle;
    if caller != c.organizer && caller != s.admin then Err(Unauthorized) else
    if c.status != Active then Err(NotActive) else
    if round != c.currentRound then Err(RoundNotCurrent) else
    if |recipients| == 0 || |recipients| > 10 || |recipients| != |amounts| then Err(InvalidAmount) else
    var s' :- BatchUpTo(s, recipients, amounts, |recipients|);
    if !hostOk then Err(HostTrap) else Ok(s')
  }

  // ----- auctions -----

  predicate HasBid(bids: seq<Bid>, bidder: Address, round: uint32) {
    exists i :: 0 <= i < |bids| && bids[i].bidder == bidder && bids[i].round == round
  }

  predicate AnyBid(bids: seq<Bid>, round: uint32) {
    exists i :: 0 <= i < |bids| && bids[i].round == round
  }

  function AuctionBid(s: Storage, bidder: Address, discountBips: uint32, round: uint32, hostOk: bool): Result<Storage, CircleError> {
    var c := s.circle;
    if c.payoutType != Auction then Err(InvalidPayoutType) else
    if discountBips > 10000 then Err(InvalidBid) else
    if round != c.currentRound then Err(RoundNotCurrent) else
    if round in s.dutch then Err(InvalidPayoutType) else
    if HasBid(s.bids, bidder, round) then Err(AlreadyBidded) else
    if c.contributionAmount > 0 && !hostOk then Err(HostTrap) else
    Ok(s.(bids := s.bids + [Bid(bidder, discountBips, round, s.now, c.contributionAmount)]))
  }

  predicate Loses(b: Bid, round: uint32, winner: Address) {
    b.round == round && b.bidder != winner
  }

  /** The refund loop's state: bids kept, bids paid back, and losers left for a later call. */
  datatype Drain = Drain(kept: seq<Bid>, refunded: seq<Bid>, remaining: nat)

  /** One turn of the loop: a losing bid is paid back while the batch has room, other bids are kept. */
  function DrainNext(d: Drain, b: Bid, round: uint32, winner: Address, cap: nat): Drain {
    if !Loses(b, round, winner) then d.(kept := d.kept + [b])
    else if |d.refunded| < cap then d.(refunded := d.refunded + [b])
    else Drain(d.kept + [b], d.refunded, d.remaining + 1)
  }

  function DrainUpTo(bids: seq<Bid>, round: uint32, winner: Address, cap: nat, i: nat): Drain
    requires i <= |bids|
  {
    if i == 0 then Drain([], [], 0)
    else DrainNext(DrainUpTo(bids, round, winner, cap, i - 1), bids[i - 1], round, winner, cap)
  }

  function AsRefunds(round: uint32, bids: seq<Bid>): seq<Refund> {
    seq(|bids|, i requires 0 <= i < |bids| => Refund(round, bids[i]))
  }

  function RefundDrain(s: Storage, round: uint32, limit: uint32): Drain
    requires round in s.winners
  {
    DrainUpTo(s.bids, round, s.winners[round], Min(limit, LOSER_REFUND_BATCH_CAP), |s.bids|)
  }

  function RefundLosingBids(s: Storage, round: uint32, limit: uint32, hostOk: bool): Result<Storage, CircleError> {
    if limit == 0 then Err(InvalidAmount) else
    if round !in s.winners then Err(AuctionNotResolved) else
    var d := RefundDrain(s, round, limit);
    if !hostOk then Err(HostTrap) else
    Ok(s.(bids := d.kept, history := s.history.(refunds := s.history.refunds + AsRefunds(round, d.refunded))))
  }

  /** The start ledger is the current one. */
  function InitDutchAuction(s: Storage, caller: Address, round: uint32, startBips: uint32, floorBips: uint32,
                            decayPerLedger: uint32, expiryLedgers: uint32): Result<Storage, CircleError>
  {
    var c := s.circle;
    if caller != c.organizer then Err(NotOrganizer) else
    if c.payoutType != Auction then Err(InvalidPayoutType) else
    if round != c.currentRound then Err(RoundNotCurrent) else
    if startBips > 10000 || floorBips > startBips || decayPerLedger == 0 || expiryLedgers == 0 then Err(InvalidDutchConfig) else
    if AnyBid(s.bids, round) then Err(AlreadyBidded) else
    Ok(s.(dutch := s.dutch[round := DutchAuction(startBips, floorBips, decayPerLedger, s.sequence, expiryLedgers, false)]))
  }

  /** The price after linear decay, saturating at zero and floored. */
  function DutchPrice(a: DutchAuction, sequence: uint32): uint32 {
    var decay := Min(a.decayPerLedger * SatSub(sequence, a.startLedger), U32_MAX);
    Max(SatSub(a.startBips, decay), a.floorBips)
  }

  function DutchAuctionBid(s: Storage, bidder: Address, round: uint32): Result<Storage, CircleError> {
    if round != s.circle.currentRound then Err(RoundNotCurrent) else
    if round !in s.dutch then Err(DutchAuctionNotConfigured) else
    var a := s.dutch[round];
    if a.resolved then Err(AuctionAlreadyResolved) else
    if SatSub(s.sequence, a.startLedger) >= a.expiryLedgers then Err(DutchAuctionExpired) else
    Ok(s.(bids := s.bids + [Bid(bidder, DutchPrice(a, s.sequence), round, s.now, 0)],
          dutch := s.dutch[round := a.(resolved := true)]))
  }

  function BidsOutside(bids: seq<Bid>, round: uint32): seq<Bid> {
    if bids == [] then []
    else BidsOutside(bids[..|bids| - 1], round) + if bids[|bids| - 1].round != round then [bids[|bids| - 1]] else []
  }

  /** What a member has contributed to a round, in checked additions over the log. */
  function ContributedBy(log: seq<Contribution>, member: Address, round: uint32): Result<int128, CircleError> {
    if log == [] then Ok(0)
    else
      var c := log[|log| - 1];
      var earlier :- ContributedBy(log[..|log| - 1], member, round);
      if c.member != member || c.round != round then Ok(earlier) else
      if !FitsI128(earlier + c.amount) then Err(InvalidAmount) else Ok(earlier + c.amount)
  }

  /** What cancelling pays back to the best bidder: their contribution to the round, or the fixed amount
      when they have made none. */
  function CancelRefund(s: Storage): Result<Option<(Address, int128)>, CircleError> {
    var best := BestBid(s.bids, s.circle.currentRound);
    if best.None? then Ok(None) else
    var paid :- ContributedBy(s.contributions, best.value.bidder, s.circle.currentRound);
    Ok(Some((best.value.bidder, if paid == 0 then s.circle.contributionAmount else paid)))
  }

  function CancelAuction(s: Storage, caller: Address, hostOk: bool): Result<Storage, CircleError> {
    if caller != s.circle.organizer then Err(NotOrganizer) else
    if s.circle.payoutType != Auction then Err(InvalidPayoutType) else
    var refund :- CancelRefund(s);
    if refund.Some? && refund.value.1 > 0 && !hostOk then Err(HostTrap) else
    Ok(s.(bids := BidsOutside(s.bids, s.circle.currentRound)))
  }

  // ----- votes, exits, strikes, disputes and settings -----

  predicate IsActiveMember(members: seq<Member>, a: Address) {
    exists i :: 0 <= i < |members| && members[i].address == a && members[i].status == InGoodStanding
  }

  predicate IsInactiveMember(members: seq<Member>, a: Address) {
    exists i :: 0 <= i < |members| && members[i].address == a && members[i].status != InGoodStanding
  }

  predicate HasVoted(votes: seq<VoteEntry>, voter: Address, round: uint32) {
    exists i :: 0 <= i < |votes| && votes[i].voter == voter && votes[i].round == round
  }

  function VotePayout(s: Storage, voter: Address, voteFor: Address, round: uint32): Result<Storage, CircleError> {
    if s.circle.payoutType != Vote then Err(InvalidPayoutType) else
    if round != s.circle.currentRound then Err(RoundNotCurrent) else
    if IsInactiveMember(s.members, voter) then Err(InvalidMemberStatus) else
    if !IsActiveMember(s.members, voter) || !IsActiveMember(s.members, voteFor) then Err(NotMember) else
    if HasVoted(s.votes, voter, round) then Err(AlreadyVoted) else
    Ok(s.(votes := s.votes + [VoteEntry(voter, voteFor, round, s.now)]))
  }

  function Departed(m: Member, now: uint64): Member {
    m.(status := Exited, exitedAt := now)
  }

  /** The list after this member has left. */
  function WithDeparted(members: seq<Member>, a: Address, now: uint64): seq<Member> {
    seq(|members|, i requires 0 <= i < |members| => if members[i].address == a then Departed(members[i], now) else members[i])
  }

  /** `penaltyOk` says whether the early-exit penalty, which is only reported, could be computed. */
  function Exit(s: Storage, member: Address, penaltyOk: bool, hostOk: bool): Result<Storage, CircleError> {
    if s.circle.status == Completed then Err(NotActive) else
    if IsInactiveMember(s.members, member) then Err(InvalidMemberStatus) else
    if !penaltyOk then Err(InvalidAmount) else
    if s.circle.collateral > 0 && !hostOk then Err(HostTrap) else
    Ok(s.(members := WithDeparted(s.members, member, s.now),
          memberStatus := s.memberStatus[member := Exited]))
  }

  predicate WasLate(log: seq<Contribution>, member: Address, round: uint32) {
    exists i :: 0 <= i < |log| && log[i].member == member && log[i].round == round && !log[i].onTime
  }

  /** A late report adds two strikes: one wrapping, one checked. */
  function ReportedStrikes(m: Member): int {
    (m.strikes + 1) % (U32_MAX + 1) + 1
  }

  function Reported(m: Member, maxStrikes: uint32): Member {
    var strikes := Min(ReportedStrikes(m), U32_MAX);
    m.(strikes := strikes, status := if strikes >= maxStrikes then Defaulted else m.status)
  }

  /** The list after this member was reported. */
  function WithReported(members: seq<Member>, a: Address, maxStrikes: uint32): seq<Member> {
    seq(|members|, i requires 0 <= i < |members| => if members[i].address == a then Reported(members[i], maxStrikes) else members[i])
  }

  /** The status cache and strike book after the report loop over the first `i` members. */
  function ReportUpTo(s: Storage, member: Address, round: uint32, i: nat): Result<Storage, CircleError>
    requires i <= |s.members|
  {
    if i == 0 then Ok(s)
    else
      var before :- ReportUpTo(s, member, round, i - 1);
      var m := s.members[i - 1];
      if m.address != member then Ok(before) else
      if ReportedStrikes(m) > U32_MAX then Err(InvalidAmount) else
      Ok(before.(roundStrikes := RecordStrike(before.roundStrikes, round, member),
                 memberStatus := if ReportedStrikes(m) >= s.circle.maxStrikes
                                 then before.memberStatus[member := Defaulted] else before.memberStatus))
  }

  function ReportLate(s: Storage, member: Address, round: uint32): Result<Storage, CircleError> {
    if s.circle.status != Active then Err(NotActive) else
    if !WasLate(s.contributions, member, round) then Err(NotMember) else
    var s' :- ReportUpTo(s, member, round, |s.members|);
    Ok(s'.(members := WithReported(s.members, member, s.circle.maxStrikes)))
  }

  function CancelCircle(s: Storage, caller: Address, hostOk: bool): Result<Storage, CircleError> {
    if caller != s.circle.organizer then Err(NotOrganizer) else
    if s.circle.status != Pending then Err(NotActive) else
    if s.circle.collateral > 0 && !hostOk then Err(HostTrap) else
    Ok(s.(circle := s.circle.(status := Cancelled)))
  }

  function RaiseDispute(s: Storage, member: Address): Result<Storage, CircleError> {
    if s.circle.status == Disputed then Err(DisputeAlreadyRaised) else
    if s.circle.status == Completed || s.circle.status == Cancelled then Err(NotActive) else
    if s.dispute.Some? then Err(DisputeAlreadyRaised) else
    Ok(s.(circle := s.circle.(status := Disputed), dispute := Some(Dispute(member, s.now, 0, 0, 0))))
  }

  /** The first member at this address, struck and defaulted. */
  function DefaultedFirst(members: seq<Member>, a: Address): seq<Member> {
    var i := IndexOfMember(members, a, 0);
    if i.None? then members
    else members[i.value := members[i.value].(strikes := Min(members[i.value].strikes + 1, U32_MAX), status := Defaulted)]
  }

  /** Every positive contribution counter refunded and set to zero. */
  function Cleared(members: seq<Member>): seq<Member> {
    seq(|members|, i requires 0 <= i < |members| =>
      if members[i].totalContributions > 0 then members[i].(totalContributions := 0) else members[i])
  }

  function ResolveDispute(s: Storage, caller: Address, resolution: uint32, hostOk: bool): Result<Storage, CircleError> {
    if caller != s.admin then Err(Unauthorized) else
    if s.dispute.None? then Err(NoActiveDispute) else
    if resolution == 0 || resolution > 4 then Err(InvalidAmount) else
    if !hostOk then Err(HostTrap) else
    var closed := s.(dispute := Some(s.dispute.value.(resolvedAt := s.now, resolution := resolution, resolvedBy := caller)));
    match resolution
    case 2 =>
      Ok(closed.(circle := s.circle.(status := Active), members := DefaultedFirst(s.members, s.dispute.value.raisedBy)))
    case 4 =>
      Ok(closed.(circle := s.circle.(status := Cancelled), members := Cleared(s.members)))
    case _ => Ok(closed.(circle := s.circle.(status := Active)))
  }

  function SchedulePayout(s: Storage, caller: Address, round: uint32): Result<Storage, CircleError> {
    if caller != s.circle.organizer && caller != s.admin then Err(Unauthorized) else
    if s.circle.status != Active then Err(NotActive) else
    if round != s.circle.currentRound then Err(RoundNotCurrent) else
    Ok(s.(scheduled := s.scheduled + {round}))
  }

  function SetFeeBps(s: Storage, caller: Address, feeBps: uint32): Result<Storage, CircleError> {
    if caller != s.admin then Err(Unauthorized) else
    if feeBps > 10_000 then Err(InvalidAmount) else
    Ok(s.(feeBps := feeBps))
  }

  function SetTreasury(s: Storage, caller: Address, treasury: Address): Result<Storage, CircleError> {
    if caller != s.admin then Err(Unauthorized) else
    Ok(s.(treasury := Some(treasury)))
  }

  /** The factory's protocol configuration; the registry address is checked here and used elsewhere. */
  function ConfigureFromFactory(s: Storage, caller: Address, treasury: Address, registry: Address, feeBps: uint32): Result<Storage, CircleError> {
    if caller != s.factory then Err(Unauthorized) else
    if treasury == ZERO_ADDRESS || registry == ZERO_ADDRESS then Err(InvalidAmount) else
    if feeBps > 10_000 then Err(InvalidAmount) else
    Ok(s.(treasury := Some(treasury), feeBps := feeBps))
  }

  /** Time and ledgers going by. */
  function Ticked(s: Storage, elapsed: nat, ledgers: nat): Storage {
    if s.now + elapsed <= U64_MAX && s.sequence + ledgers <= U32_MAX
    then s.(now := s.now + elapsed, sequence := s.sequence + ledgers) else s
  }

  // ----- runs -----

  datatype Call =
    | CallJoin(member: Address, reputation: uint32, permitted: bool, hostOk: bool)
    | CallInvite(caller: Address, invitees: seq<Address>, score: Address -> uint32)
    | CallContribute(member: Address, amount: int128, round: uint32, hostOk: bool)
    | CallDeadline(yieldOk: bool, hostOk: bool)
    | CallTrigger(caller: Address, round: uint32, yieldOk: bool, hostOk: bool)
    | CallBatch(caller: Address, recipients: seq<Address>, amounts: seq<int128>, round: uint32, hostOk: bool)
    | CallBid(bidder: Address, discountBips: uint32, round: uint32, hostOk: bool)
    | CallRefund(round: uint32, limit: uint32, hostOk: bool)
    | CallInitDutch(caller: Address, round: uint32, startBips: uint32, floorBips: uint32, decayPerLedger: uint32, expiryLedgers: uint32)
    | CallDutchBid(bidder: Address, round: uint32)
    | CallCancelAuction(caller: Address, hostOk: bool)
    | CallVote(voter: Address, voteFor: Address, round: uint32)
    | CallExit(member: Address, penaltyOk: bool, hostOk: bool)
    | CallReport(member: Address, round: uint32)
    | CallCancelCircle(caller: Address, hostOk: bool)
    | CallDispute(member: Address)
    | CallResolve(caller: Address, resolution: uint32, hostOk: bool)
    | CallSchedule(caller: Address, round: uint32)
    | CallSetFee(caller: Address, feeBps: uint32)
    | CallSetTreasury(caller: Address, treasury: Address)
    | CallConfigure(caller: Address, treasury: Address, registry: Address, feeBps: uint32)
    | Tick(elapsed: nat, ledgers: nat)

  ghost function Outcome(hash: Hash, s: Storage, c: Call): Result<Storage, CircleError> {
    match c
    case CallJoin(m, score, permitted, h) => Join(s, m, score, permitted, h)
    case CallInvite(caller, list, score) => BatchInvite(s, caller, list, score)
    case CallContribute(m, a, r, h) => Contribute(s, m, a, r, h)
    case CallDeadline(y, h) => CheckContributionDeadline(hash, s, y, h)
    case CallTrigger(caller, r, y, h) => TriggerPayout(hash, s, caller, r, y, h)
    case CallBatch(caller, rs, amounts, r, h) => BatchPayout(s, caller, rs, amounts, r, h)
    case CallBid(b, d, r, h) => AuctionBid(s, b, d, r, h)
    case CallRefund(r, limit, h) => RefundLosingBids(s, r, limit, h)
    case CallInitDutch(caller, r, start, floor, decay, expiry) => InitDutchAuction(s, caller, r, start, floor, decay, expiry)
    case CallDutchBid(b, r) => DutchAuctionBid(s, b, r)
    case CallCancelAuction(caller, h) => CancelAuction(s, caller, h)
    case CallVote(v, f, r) => VotePayout(s, v, f, r)
    case CallExit(m, p, h) => Exit(s, m, p, h)
    case CallReport(m, r) => ReportLate(s, m, r)
    case CallCancelCircle(caller, h) => CancelCircle(s, caller, h)
    case CallDispute(m) => RaiseDispute(s, m)
    case CallResolve(caller, r, h) => ResolveDispute(s, caller, r, h)
    case CallSchedule(caller, r) => SchedulePayout(s, caller, r)
    case CallSetFee(caller, f) => SetFeeBps(s, caller, f)
    case CallSetTreasury(caller, t) => SetTreasury(s, caller, t)
    case CallConfigure(caller, t, registry, f) => ConfigureFromFactory(s, caller, t, registry, f)
    case Tick(d, n) => Ok(Ticked(s, d, n))
  }

  ghost function Run(hash: Hash, s: Storage, calls: seq<Call>): Storage {
    if calls == [] then s
    else
      var before := Run(hash, s, calls[..|calls| - 1]);
      Settled(before, Outcome(hash, before, calls[|calls| - 1]))
  }
}
