/** The entities of a savings circle (packages/circle/src/types.rs). */
module CircleTypes {
  import opened Common
  import opened Vrf

  const MAX_CIRCLE_MEMBERS := 100
  const LOSER_REFUND_BATCH_CAP := 20
  const MAX_LEADERBOARD_LIMIT := 50

  /** The account whose address bytes are all zero. */
  const ZERO_ADDRESS: Address := 0

  /** The sizes `init` accepts. */
  type CircleSize = n: int | 2 <= n <= MAX_CIRCLE_MEMBERS witness 2

  datatype PayoutType = Random | Fixed | Auction | Vote

  datatype CircleStatus = Pending | Active | Completed | Cancelled | Disputed

  datatype MemberStatus = InGoodStanding | Exited | Defaulted

  datatype CircleError =
    | NotActive
    | CircleFull
    | AlreadyMember
    | NotMember
    | InsufficientMoiScore
    | RoundNotCurrent
    | InvalidAmount
    | PaymentDeadlinePassed
    | NotOrganizer
    | VoteQuorumNotMet
    | AlreadyContributed
    | AlreadyVoted
    | AlreadyBidded
    | PayoutAlreadyExecuted
    | InvalidPayoutType
    | InvalidRound
    | ContributionMismatch
    | DisputeAlreadyRaised
    | NoActiveDispute
    | Unauthorized
    | InvalidBid
    | InvalidMemberStatus
    | CircleSizeExceedsTier
    | AllowlistNotPermitted
    | NotInitialized
    | OracleUnavailable
    | CircleDurationTooShort
    | PayoutAlreadyScheduled
    | AuctionAlreadyResolved
    | DutchAuctionNotConfigured
    | DutchAuctionExpired
    | InvalidDutchConfig
    | AuctionNotResolved
    | InvalidContributionRound
    | DeadlineNotPassed
    | AlreadyStruck
    | HostTrap

  datatype Circle = Circle(
    organizer: Address,
    contributionAmount: int128,
    maxMembers: CircleSize,
    memberCount: nat,
    payoutType: PayoutType,
    totalRounds: uint32,
    currentRound: uint32,
    status: CircleStatus,
    startedAt: uint64,
    createdAt: uint64,
    deadlineSeconds: uint64,
    minScore: uint32,
    collateral: int128,
    penaltyBps: uint32,
    graceSeconds: uint64,
    maxStrikes: uint32,
    minDuration: uint64,
    bitmap: nat,
    totalPayouts: int128,
    totalFees: int128)

  datatype Member = Member(
    address: Address,
    position: uint32,
    joinedAt: uint64,
    strikes: uint32,
    status: MemberStatus,
    exitedAt: uint64,
    totalContributions: int128,
    totalReceived: int128)

  datatype Contribution = Contribution(member: Address, round: uint32, amount: int128, timestamp: uint64, onTime: bool)

  datatype PayoutRecord = PayoutRecord(recipient: Address, round: uint32, amount: int128, fee: int128, payoutType: PayoutType, timestamp: uint64)

  datatype FeeLedger = FeeLedger(payoutFee: int128, latePenaltyFee: int128, totalFee: int128)

  datatype Bid = Bid(bidder: Address, discountBips: uint32, round: uint32, timestamp: uint64, deposit: int128)

  datatype VoteEntry = VoteEntry(voter: Address, voteFor: Address, round: uint32, timestamp: uint64)

  datatype DutchAuction = DutchAuction(
    startBips: uint32,
    floorBips: uint32,
    decayPerLedger: uint32,
    startLedger: uint32,
    expiryLedgers: uint32,
    resolved: bool)

  datatype Dispute = Dispute(raisedBy: Address, raisedAt: uint64, resolvedAt: uint64, resolution: uint32, resolvedBy: Address)

  /** How one round was settled: who was resolved, the recorded pool, its split and what was paid out. */
  datatype Settlement = Settlement(recipient: Address, pool: int128, net: int128, fee: int128, paid: int128)

  /** A losing deposit returned by `refund_losing_bids`. */
  datatype Refund = Refund(round: uint32, bid: Bid)

  /** The history a run leaves behind: settlements by round, members paid by a batch, the net batch
      amounts they got, strangers paid by a batch, and refunds in order. */
  datatype History = History(
    settlements: seq<Settlement>,
    batchPaid: seq<Address>,
    batchNet: int,
    strangersPaid: seq<Address>,
    refunds: seq<Refund>)

  type StatusCache = map<Address, MemberStatus>
  type StrikeBook = map<uint32, map<Address, uint32>>
  type FeeLedgers = map<uint32, FeeLedger>

  /** Every storage entry of a circle contract, the ledger clock and number, and the history. */
  datatype Storage = Storage(
    circle: Circle,
    admin: Address,
    factory: Address,
    members: seq<Member>,
    memberStatus: StatusCache,
    contributions: seq<Contribution>,
    memberContributed: set<(Address, uint32)>,
    roundTotals: map<uint32, int128>,
    roundContributors: map<uint32, seq<Address>>,
    roundStrikes: StrikeBook,
    payouts: seq<PayoutRecord>,
    feeLedgers: FeeLedgers,
    bids: seq<Bid>,
    votes: seq<VoteEntry>,
    winners: map<uint32, Address>,
    scheduled: set<uint32>,
    dutch: map<uint32, DutchAuction>,
    dispute: Option<Dispute>,
    feeBps: uint32,
    treasury: Option<Address>,
    vrf: VrfState,
    now: uint64,
    sequence: uint32,
    history: History)
}
