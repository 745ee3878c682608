/** When the payment of a resolved round goes through: the guards on the state that decide it. */
module CirclePayments {
  import opened Common
  import opened SafeMath
  import opened CircleTypes
  import opened CircleOps
  import opened CircleInvariant
  import opened CircleSettlement
  import opened CircleConservation

  // ----- who would receive what -----

  /** The fee on the current round's pool, rounded down. */
  function FeeDue(s: Storage): int {
    RoundTotal(s, s.circle.currentRound) * s.feeBps / 10_000
  }

  /** What the fee leaves of the pool. */
  function NetDue(s: Storage): int {
    RoundTotal(s, s.circle.currentRound) - FeeDue(s)
  }

  /** What the first `i` members get by weight; nothing unless the circle is random. */
  function Handed(s: Storage, net: int128, i: nat): int
    requires i <= |s.members| && net > 0
  {
    if s.circle.payoutType == Random then HandedUpTo(s.members, RoundWeights(s), net, i) else 0
  }

  /** What is paid out altogether. */
  function Paid(s: Storage, net: int128): int
    requires net > 0
  {
    Max(net, Handed(s, net, |s.members|))
  }

  /** What seat `i` receives: its share, and for the resolved recipient what the shares leave of the net. */
  function Receipt(s: Storage, net: int128, recipient: Address, i: nat): int
    requires i < |s.members| && net > 0
  {
    Handed(s, net, i + 1) - Handed(s, net, i)
    + if s.members[i].address == recipient then Paid(s, net) - Handed(s, net, |s.members|) else 0
  }

  /** The recorded sums have room for the round. */
  predicate SumsFit(s: Storage, net: int128, fee: int, recipient: Address)
    requires net > 0
  {
    && s.circle.totalFees + fee <= I128_MAX
    && s.circle.totalPayouts + Paid(s, net) <= I128_MAX
    && ReceiptsFit(s, net, recipient)
  }

  predicate ReceiptsFit(s: Storage, net: int128, recipient: Address)
    requires net > 0
  {
    forall i :: 0 <= i < |s.members| ==> s.members[i].totalReceived + Receipt(s, net, recipient, i) <= I128_MAX
  }

  /** The guards on paying the current round's pool: the fee's product fits, and when there is anything to
      pay, the oracle and the transfers answer and the recorded sums have room. */
  predicate CanPay(s: Storage, recipient: Address, yieldOk: bool, hostOk: bool) {
    && RoundTotal(s, s.circle.currentRound) * s.feeBps <= I128_MAX
    && (0 < NetDue(s) <= I128_MAX ==> yieldOk && hostOk && SumsFit(s, NetDue(s), FeeDue(s), recipient))
  }

  // ----- crediting -----

  lemma {:induction false} CreditsExactly(members: seq<Member>, k: nat, amount: int128, i: nat)
    requires Seated(members) && k < |members| && i <= |members|
    ensures CreditUpTo(members, members[k].address, amount, i).Ok? <==> i <= k || FitsI128(members[k].totalReceived + amount)
  {
    if i > 0 {
      CreditsExactly(members, k, amount, i - 1);
      if CreditUpTo(members, members[k].address, amount, i - 1).Ok? {
        CreditSeatUpTo(members, k, amount, i - 1);
      }
    }
  }

  /** The share of seat `j` once the first `i` seats have had theirs. */
  function ShareBy(members: seq<Member>, weights: Weights, net: int128, i: nat, j: nat): int
    requires i <= |members| && j < |members| && net > 0
  {
    if j < i then HandedUpTo(members, weights, net, j + 1) - HandedUpTo(members, weights, net, j) else 0
  }

  /** The first `i` shares leave every sum in range. */
  predicate SharesFit(members: seq<Member>, weights: Weights, net: int128, i: nat)
    requires i <= |members| && net > 0
  {
    && HandedUpTo(members, weights, net, i) <= I128_MAX
    && forall j :: 0 <= j < |members| ==> members[j].totalReceived + ShareBy(members, weights, net, i, j) <= I128_MAX
  }

  /** The members and the sum after the first `i` shares. */
  predicate SharedOut(members: seq<Member>, weights: Weights, net: int128, i: nat, d: Dist)
    requires i <= |members| && net > 0
  {
    && d.distributed == HandedUpTo(members, weights, net, i) && |d.members| == |members|
    && forall j :: 0 <= j < |members| ==>
         && FitsI128(members[j].totalReceived + ShareBy(members, weights, net, i, j))
         && d.members[j] == members[j].(totalReceived := members[j].totalReceived + ShareBy(members, weights, net, i, j))
  }

  lemma SharedOutIsSeated(members: seq<Member>, weights: Weights, net: int128, i: nat, d: Dist)
    requires i <= |members| && net > 0 && Seated(members) && SharedOut(members, weights, net, i, d)
    ensures Seated(d.members)
  {
    hide HandedUpTo, ShareBy;
  }

  function ShareAt(members: seq<Member>, weights: Weights, net: int128, i: nat): int
    requires i < |members| && net > 0
  {
    HandedUpTo(members, weights, net, i + 1) - HandedUpTo(members, weights, net, i)
  }

  lemma NextSeat(members: seq<Member>, weights: Weights, net: int128, i: nat, d: Dist)
    requires i < |members| && net > 0 && SharedOut(members, weights, net, i, d)
    ensures d.members[i] == members[i] && |d.members| == |members| && d.distributed == HandedUpTo(members, weights, net, i)
    ensures Seated(members) ==> Seated(d.members)
  {
    hide HandedUpTo, Seated;
    assert ShareBy(members, weights, net, i, i) == 0;
    if Seated(members) {
      SharedOutIsSeated(members, weights, net, i, d);
    }
  }

  /** One seat's turn fails exactly when its share overflows its receipts or the sum. */
  lemma TurnPays(members: seq<Member>, weights: Weights, net: int128, info: RoundInfo, i: nat, share: int128, d: Dist)
    requires i < |members| && net > 0 && Seated(members) && SharedOut(members, weights, net, i, d)
    requires share == ShareAt(members, weights, net, i) > 0
    ensures var paid := PayShare(d, members[i].address, share, info);
            && (paid.Ok? <==> HandedUpTo(members, weights, net, i + 1) <= I128_MAX && members[i].totalReceived + share <= I128_MAX)
            && (paid.Ok? ==> FitsI128(d.members[i].totalReceived + share) && d.members[i] == members[i]
                             && paid.value.members == d.members[i := d.members[i].(totalReceived := d.members[i].totalReceived + share)]
                             && paid.value.distributed == HandedUpTo(members, weights, net, i + 1))
  {
    hide HandedUpTo, SharedOut, Seated, CreditUpTo;
    NextSeat(members, weights, net, i, d);
    CreditsExactly(d.members, i, share, |members|);
    if PayShare(d, members[i].address, share, info).Ok? {
      CreditSeat(d.members, i, share);
    }
  }

  lemma TurnSharesOut(members: seq<Member>, weights: Weights, net: int128, i: nat, share: int128, d: Dist, d': Dist)
    requires i < |members| && net > 0 && SharedOut(members, weights, net, i, d)
    requires share == ShareAt(members, weights, net, i) && |d.members| == |members| && FitsI128(d.members[i].totalReceived + share)
    requires d'.members == d.members[i := d.members[i].(totalReceived := d.members[i].totalReceived + share)]
    requires d'.distributed == HandedUpTo(members, weights, net, i + 1)
    ensures SharedOut(members, weights, net, i + 1, d')
  {
    hide HandedUpTo;
    forall j | 0 <= j < |members|
      ensures FitsI128(members[j].totalReceived + ShareBy(members, weights, net, i + 1, j))
      ensures d'.members[j] == members[j].(totalReceived := members[j].totalReceived + ShareBy(members, weights, net, i + 1, j))
    {
      assert d.members[j] == members[j].(totalReceived := members[j].totalReceived + ShareBy(members, weights, net, i, j));
    }
  }

  lemma NoShareSharesOut(members: seq<Member>, weights: Weights, net: int128, i: nat, d: Dist)
    requires i < |members| && net > 0 && SharedOut(members, weights, net, i, d) && ShareAt(members, weights, net, i) == 0
    ensures SharedOut(members, weights, net, i + 1, d)
  {
    hide HandedUpTo;
    forall j | 0 <= j < |members|
      ensures ShareBy(members, weights, net, i + 1, j) == ShareBy(members, weights, net, i, j)
    {
    }
    hide ShareBy;
  }

  lemma SharesGrow(members: seq<Member>, weights: Weights, net: int128, i: nat)
    requires i < |members| && net > 0
    ensures ShareAt(members, weights, net, i) >= 0
    ensures weights.total == 0 || members[i].address !in weights.of ==> ShareAt(members, weights, net, i) == 0
    ensures weights.total > 0 && members[i].address in weights.of ==>
              ShareAt(members, weights, net, i)
              == Max(0, Share(net, weights.of[members[i].address], weights.total, HandedUpTo(members, weights, net, i)))
  {
    if weights.total > 0 {
      NoWeightNoShare(net, weights.total, HandedUpTo(members, weights, net, i));
    }
    hide Share;
  }

  lemma SharesFitStep(members: seq<Member>, weights: Weights, net: int128, i: nat)
    requires i < |members| && net > 0 && ShareAt(members, weights, net, i) >= 0
    ensures SharesFit(members, weights, net, i + 1)
            <==> SharesFit(members, weights, net, i)
                 && HandedUpTo(members, weights, net, i + 1) <= I128_MAX
                 && members[i].totalReceived + ShareAt(members, weights, net, i) <= I128_MAX
  {
    hide HandedUpTo;
    forall j | 0 <= j < |members|
      ensures ShareBy(members, weights, net, i + 1, j)
              == if j == i then ShareAt(members, weights, net, i) else ShareBy(members, weights, net, i, j)
      ensures ShareBy(members, weights, net, i, i) == 0
    {
    }
    assert ShareBy(members, weights, net, i + 1, i) == ShareAt(members, weights, net, i);
    if SharesFit(members, weights, net, i + 1) {
      forall j | 0 <= j < |members|
        ensures members[j].totalReceived + ShareBy(members, weights, net, i, j) <= I128_MAX
      {
        assert members[j].totalReceived + ShareBy(members, weights, net, i + 1, j) <= I128_MAX;
      }
    }
    hide ShareBy, ShareAt;
  }

  lemma NothingSharedYet(members: seq<Member>, weights: Weights, net: int128, d: Dist)
    requires net > 0 && d.members == members && d.distributed == 0
    ensures SharesFit(members, weights, net, 0) && SharedOut(members, weights, net, 0, d)
  {
  }

  /** One turn of the distribution loop, for seat `i`. */
  function Turn(before: Dist, weights: Weights, net: int128, info: RoundInfo, i: nat): Result<Dist, CircleError>
    requires i < |before.members| && net > 0
  {
    var a := before.members[i].address;
    if a !in weights.of || weights.total == 0 then Ok(before) else
    var share := Share(net, weights.of[a], weights.total, before.distributed);
    if share <= 0 then Ok(before) else PayShare(before, a, share, info)
  }

  lemma DistributeTakesTurns(d: Dist, weights: Weights, net: int128, info: RoundInfo, i: nat)
    requires i < |d.members| && net > 0
    ensures DistributeUpTo(d, weights, net, info, i + 1)
            == match DistributeUpTo(d, weights, net, info, i)
               case Ok(before) => Turn(before, weights, net, info, i)
               case Err(e) => Err(e)
  {
    hide PayShare, Share;
  }

  lemma TurnSharesExactly(members: seq<Member>, weights: Weights, net: int128, info: RoundInfo, i: nat, d: Dist)
    requires i < |members| && net > 0 && Seated(members) && SharedOut(members, weights, net, i, d) && |d.members| == |members|
    requires SharesFit(members, weights, net, i)
    ensures Turn(d, weights, net, info, i).Ok? <==> SharesFit(members, weights, net, i + 1)
    ensures Turn(d, weights, net, info, i).Ok? ==> SharedOut(members, weights, net, i + 1, Turn(d, weights, net, info, i).value)
  {
    hide Seated, SharesFit, SharedOut, PayShare, Share, HandedUpTo, ShareAt;
    SharesGrow(members, weights, net, i);
    SharesFitStep(members, weights, net, i);
    NextSeat(members, weights, net, i, d);
    var share := ShareAt(members, weights, net, i);
    if share == 0 {
      assert Turn(d, weights, net, info, i) == Ok(d);
      NoShareSharesOut(members, weights, net, i, d);
      NoShareFits(members, weights, net, i, d);
    } else {
      var paid := PayShare(d, members[i].address, share, info);
      assert Turn(d, weights, net, info, i) == paid;
      TurnPays(members, weights, net, info, i, share, d);
      if paid.Ok? {
        TurnSharesOut(members, weights, net, i, share, d, paid.value);
      }
    }
  }

  /** Handing out by weight fails exactly when a share overflows somebody's receipts or the sum, and otherwise
      leaves everybody with their own share. */
  lemma {:induction false} DistributesExactly(members: seq<Member>, d: Dist, weights: Weights, net: int128, info: RoundInfo, i: nat)
    requires Seated(members) && d.members == members && d.distributed == 0 && net > 0 && i <= |members|
    ensures DistributeUpTo(d, weights, net, info, i).Ok? <==> SharesFit(members, weights, net, i)
    ensures DistributeUpTo(d, weights, net, info, i).Ok? ==> SharedOut(members, weights, net, i, DistributeUpTo(d, weights, net, info, i).value)
  {
    hide Seated, SharesFit, SharedOut, Turn, HandedUpTo, ShareAt;
    if i == 0 {
      NothingSharedYet(members, weights, net, d);
    } else {
      DistributesExactly(members, d, weights, net, info, i - 1);
      DistributeTakesTurns(d, weights, net, info, i - 1);
      FittingSharesFitBefore(members, weights, net, i - 1);
      hide DistributeUpTo;
      if DistributeUpTo(d, weights, net, info, i - 1).Ok? {
        TurnSharesExactly(members, weights, net, info, i - 1, DistributeUpTo(d, weights, net, info, i - 1).value);
      }
    }
  }

  lemma FittingSharesFitBefore(members: seq<Member>, weights: Weights, net: int128, i: nat)
    requires i < |members| && net > 0
    ensures SharesFit(members, weights, net, i + 1) ==> SharesFit(members, weights, net, i)
  {
    hide SharesFit, HandedUpTo, Share, ShareAt;
    SharesGrow(members, weights, net, i);
    SharesFitStep(members, weights, net, i);
  }

  lemma NoShareFits(members: seq<Member>, weights: Weights, net: int128, i: nat, d: Dist)
    requires i < |members| && net > 0 && SharedOut(members, weights, net, i, d) && ShareAt(members, weights, net, i) == 0
    ensures HandedUpTo(members, weights, net, i + 1) <= I128_MAX && members[i].totalReceived + ShareAt(members, weights, net, i) <= I128_MAX
  {
    hide HandedUpTo;
  }

  // ----- the dust -----

  /** Paying the dust to seat `k` fails exactly when it overflows that seat's receipts. */
  lemma DustPays(d: Dist, k: nat, dust: int128, info: RoundInfo)
    requires Seated(d.members) && k < |d.members| && dust > 0 && FitsI128(d.distributed + dust)
    ensures var paid := PayShare(d, d.members[k].address, dust, info);
            && (paid.Ok? <==> d.members[k].totalReceived + dust <= I128_MAX)
            && (paid.Ok? ==> paid.value.distributed == d.distributed + dust)
  {
    hide Seated, CreditUpTo;
    CreditsExactly(d.members, k, dust, |d.members|);
  }

  /** A random circle's receipts, share by share. */
  lemma RandomReceipts(s: Storage, k: nat, net: int128)
    requires Seated(s.members) && k < |s.members| && net > 0 && s.circle.payoutType == Random
    ensures var n, weights := |s.members|, RoundWeights(s);
            var handed := HandedUpTo(s.members, weights, net, n);
            ReceiptsFit(s, net, s.members[k].address) && handed <= I128_MAX
            <==> SharesFit(s.members, weights, net, n)
                 && s.members[k].totalReceived + ShareBy(s.members, weights, net, n, k) + Max(0, net - handed) <= I128_MAX
  {
    hide HandedUpTo;
    var n, weights, a := |s.members|, RoundWeights(s), s.members[k].address;
    forall i | 0 <= i < n
      ensures Receipt(s, net, a, i)
              == ShareBy(s.members, weights, net, n, i) + if i == k then Max(0, net - HandedUpTo(s.members, weights, net, n)) else 0
    {
      assert s.members[i].address == a <==> i == k;
    }
    hide Receipt, ShareBy, RoundWeights, Seated;
    if ReceiptsFit(s, net, a) {
      assert s.members[k].totalReceived + Receipt(s, net, a, k) <= I128_MAX;
      forall i | 0 <= i < n
        ensures s.members[i].totalReceived + ShareBy(s.members, weights, net, n, i) <= I128_MAX
      {
        assert s.members[i].totalReceived + Receipt(s, net, a, i) <= I128_MAX;
      }
    }
  }

  /** The end of the distribution: what the shares leave of the net goes to the resolved recipient. */
  function Topped(shared: Dist, a: Address, net: int128, info: RoundInfo): Result<Dist, CircleError> {
    if shared.distributed >= net then Ok(shared) else
    if !FitsI128(net - shared.distributed) then Err(InvalidAmount) else PayShare(shared, a, net - shared.distributed, info)
  }

  /** The distribution before anybody has a share. */
  function Headed(s: Storage, a: Address, net: int128, fee: int128, info: RoundInfo): Dist {
    Dist(s.members, 0, s.payouts + [PayoutRecord(a, info.round, net, fee, info.payoutType, info.now)])
  }

  lemma RandomIsSharesThenDust(s: Storage, a: Address, net: int128, fee: int128)
    requires net > 0 && s.circle.payoutType == Random
    ensures var info := RoundInfo(s.circle.currentRound, Random, s.now);
            var shared := DistributeUpTo(Headed(s, a, net, fee, info), RoundWeights(s), net, info, |s.members|);
            Distribute(s, a, net, fee, info) == if shared.Ok? then Topped(shared.value, a, net, info) else shared
  {
    hide DistributeUpTo, Weigh, PayShare;
  }

  lemma ToppingPays(members: seq<Member>, weights: Weights, net: int128, k: nat, shared: Dist, info: RoundInfo)
    requires Seated(members) && k < |members| && net > 0 && SharedOut(members, weights, net, |members|, shared)
    ensures var handed, topped := HandedUpTo(members, weights, net, |members|), Topped(shared, members[k].address, net, info);
            && (topped.Ok? <==> members[k].totalReceived + ShareBy(members, weights, net, |members|, k) + Max(0, net - handed) <= I128_MAX)
            && (topped.Ok? ==> topped.value.distributed == Max(net, handed))
  {
    hide HandedUpTo, ShareBy, SharedOut, PayShare, Seated;
    var handed := HandedUpTo(members, weights, net, |members|);
    SharedSeat(members, weights, net, k, shared);
    if handed < net {
      HandedIsNonNegative(members, weights, net, |members|);
      DustPays(shared, k, net - handed, info);
    }
  }

  lemma RandomDistributes(s: Storage, k: nat, net: int128, fee: int128)
    requires Seated(s.members) && k < |s.members| && net > 0 && s.circle.payoutType == Random
    ensures var d := Distribute(s, s.members[k].address, net, fee, RoundInfo(s.circle.currentRound, Random, s.now));
            && (d.Ok? <==> Handed(s, net, |s.members|) <= I128_MAX && ReceiptsFit(s, net, s.members[k].address))
            && (d.Ok? ==> d.value.distributed == Paid(s, net))
  {
    hide HandedUpTo, DistributeUpTo, RoundWeights, SharesFit, ReceiptsFit, ShareBy, Distribute, Topped, SharedOut, Seated;
    var info := RoundInfo(s.circle.currentRound, Random, s.now);
    var a, n, weights := s.members[k].address, |s.members|, RoundWeights(s);
    var start := Headed(s, a, net, fee, info);
    RandomIsSharesThenDust(s, a, net, fee);
    DistributesExactly(s.members, start, weights, net, info, n);
    RandomReceipts(s, k, net);
    var shared := DistributeUpTo(start, weights, net, info, n);
    if shared.Ok? {
      ToppingPays(s.members, weights, net, k, shared.value, info);
    }
  }

  lemma SharedSeat(members: seq<Member>, weights: Weights, net: int128, k: nat, d: Dist)
    requires Seated(members) && k < |members| && net > 0 && SharedOut(members, weights, net, |members|, d)
    ensures Seated(d.members) && |d.members| == |members| && d.members[k].address == members[k].address
    ensures d.members[k].totalReceived == members[k].totalReceived + ShareBy(members, weights, net, |members|, k)
    ensures d.distributed == HandedUpTo(members, weights, net, |members|)
  {
    hide HandedUpTo, ShareBy, Seated;
    SharedOutIsSeated(members, weights, net, |members|, d);
  }

  lemma {:induction false} HandedIsNonNegative(members: seq<Member>, weights: Weights, net: int128, i: nat)
    requires i <= |members| && net > 0
    ensures HandedUpTo(members, weights, net, i) >= 0
  {
    if i > 0 {
      HandedIsNonNegative(members, weights, net, i - 1);
    }
  }

  lemma PlainDistributes(s: Storage, k: nat, net: int128, fee: int128)
    requires Seated(s.members) && k < |s.members| && net > 0 && s.circle.payoutType != Random
    ensures var d := Distribute(s, s.members[k].address, net, fee, RoundInfo(s.circle.currentRound, s.circle.payoutType, s.now));
            && (d.Ok? <==> ReceiptsFit(s, net, s.members[k].address))
            && (d.Ok? ==> d.value.distributed == net == Paid(s, net))
  {
    var info := RoundInfo(s.circle.currentRound, s.circle.payoutType, s.now);
    var a := s.members[k].address;
    var start := Dist(s.members, 0, s.payouts + [PayoutRecord(a, info.round, net, fee, info.payoutType, s.now)]);
    DustPays(start, k, net, info);
    forall i | 0 <= i < |s.members|
      ensures Receipt(s, net, a, i) == if i == k then net else 0
    {
      assert s.members[i].address == a <==> i == k;
    }
    hide Receipt, PayShare, Seated;
    if s.members[k].totalReceived + net > I128_MAX {
      assert s.members[k].totalReceived + Receipt(s, net, a, k) > I128_MAX;
    }
  }

  /** Distributing a net amount fails exactly when somebody's receipts, or the sum of the shares, overflow. */
  lemma DistributeFitsExactly(s: Storage, k: nat, net: int128, fee: int128)
    requires Seated(s.members) && k < |s.members| && net > 0
    ensures var d := Distribute(s, s.members[k].address, net, fee, RoundInfo(s.circle.currentRound, s.circle.payoutType, s.now));
            && (d.Ok? <==> Handed(s, net, |s.members|) <= I128_MAX && ReceiptsFit(s, net, s.members[k].address))
            && (d.Ok? ==> d.value.distributed == Paid(s, net))
  {
    hide Distribute, ReceiptsFit, HandedUpTo;
    if s.circle.payoutType == Random {
      RandomDistributes(s, k, net, fee);
    } else {
      PlainDistributes(s, k, net, fee);
    }
  }

  // ----- the books -----

  /** A fee that fits the total of all fees fits its round's ledger. */
  lemma FeeFitsLedger(ledgers: FeeLedgers, round: uint32, fee: int128)
    requires LedgersSound(ledgers) && fee >= 0 && SumMap(TotalFees(ledgers)) + fee <= I128_MAX
    ensures RecordRoundFee(ledgers, round, fee, 0).Ok?
  {
    var totals := TotalFees(ledgers);
    if round in ledgers {
      SumMapAtLeast<uint32>(totals, round);
      var l := ledgers[round];
      assert l.payoutFee + fee + l.latePenaltyFee == totals[round] + fee <= I128_MAX;
    } else {
      SumMapNonNegative(totals);
    }
  }

  lemma {:induction false} PayoutsAreNonNegative(settlements: seq<Settlement>)
    requires forall r :: 0 <= r < |settlements| ==> SettlementSound(settlements[r])
    ensures PaidOut(settlements) >= 0
  {
    if settlements != [] {
      PayoutsAreNonNegative(settlements[..|settlements| - 1]);
      assert SettlementSound(settlements[|settlements| - 1]);
    }
  }

  lemma TotalPayoutsAreNonNegative(s: Storage)
    requires MarksSound(s) && BooksSound(s)
    ensures s.circle.totalPayouts >= 0
  {
    forall r | 0 <= r < |s.history.settlements|
      ensures SettlementSound(s.history.settlements[r])
    {
      assert r < s.circle.currentRound;
    }
    PayoutsAreNonNegative(s.history.settlements);
  }

  lemma PaysAtLeastNet(s: Storage, net: int128)
    requires net > 0
    ensures Paid(s, net) >= net && Paid(s, net) >= Handed(s, net, |s.members|)
  {
  }

  /** A paying round is booked exactly when the transfers answer and the sums have room. */
  lemma PaidRoundBooksExactly(s: Storage, k: nat, pool: int128, net: int128, fee: int128, hostOk: bool)
    requires Seated(s.members) && k < |s.members| && net > 0 && fee >= 0 && s.circle.currentRound < U32_MAX
    requires LedgersSound(s.feeLedgers) && s.circle.totalFees == SumMap(TotalFees(s.feeLedgers)) && s.circle.totalPayouts >= 0
    ensures SettlePaid(s, s.members[k].address, pool, net, fee, hostOk).Ok? <==> hostOk && SumsFit(s, net, fee, s.members[k].address)
  {
    hide Distribute, RecordRoundFee, ReceiptsFit, Handed, Paid, Seated, LedgersSound, TotalFees, MarkPaid;
    DistributeFitsExactly(s, k, net, fee);
    PaysAtLeastNet(s, net);
    if s.circle.totalFees + fee <= I128_MAX {
      FeeFitsLedger(s.feeLedgers, s.circle.currentRound, fee);
    }
  }

  /** The part of the state that says who is paid what, whoever is resolved. */
  lemma PaymentIgnoresResolution(s: Storage, res: Resolution, yieldOk: bool, hostOk: bool)
    ensures var t := s.(vrf := res.vrf, winners := res.winners);
            && RoundTotal(t, s.circle.currentRound) == RoundTotal(s, s.circle.currentRound)
            && forall net: int128, fee: int :: net > 0 ==> (SumsFit(t, net, fee, res.recipient) <==> SumsFit(s, net, fee, res.recipient))
  {
    var t := s.(vrf := res.vrf, winners := res.winners);
    assert RoundWeights(t) == RoundWeights(s);
    hide RoundWeights;
    forall net: int128, fee: int | net > 0
      ensures SumsFit(t, net, fee, res.recipient) <==> SumsFit(s, net, fee, res.recipient)
    {
      assert forall i :: 0 <= i <= |s.members| ==> Handed(t, net, i) == Handed(s, net, i);
      assert forall i :: 0 <= i < |s.members| ==> Receipt(t, net, res.recipient, i) == Receipt(s, net, res.recipient, i);
      hide Handed, Receipt;
    }
  }

  /** Main result on payments: once somebody is resolved, the round settles exactly when the guards allow it. */
  lemma PoolPaysExactly(s: Storage, res: Resolution, k: nat, yieldOk: bool, hostOk: bool)
    requires SeatsSound(s) && MarksSound(s) && LogSound(s) && BooksSound(s) && s.feeBps <= 10_000
    requires k < |s.members| && s.members[k].address == res.recipient
    ensures SettlePool(s.(vrf := res.vrf, winners := res.winners), res.recipient, yieldOk, hostOk).Ok?
            <==> CanPay(s, res.recipient, yieldOk, hostOk)
  {
    var t := s.(vrf := res.vrf, winners := res.winners);
    var pool := RoundTotal(s, s.circle.currentRound);
    TotalPayoutsAreNonNegative(s);
    RoundsBounded(s);
    PoolIsScanned(s, s.circle.currentRound);
    FeeSplitsAmount(pool, s.feeBps);
    PaymentIgnoresResolution(s, res, yieldOk, hostOk);
    SeatsGiveSeated(s);
    hide SeatsSound, MarksSound, LogSound, SumsFit, RoundTotal, ApplyFee, SettlePaid;
    if ApplyFee(pool, s.feeBps).Ok? {
      var split := ApplyFee(pool, s.feeBps).value;
      assert split.fee == FeeDue(s) && split.net == NetDue(s);
      if split.net > 0 {
        PaidRoundBooksExactly(t, k, pool, split.net, split.fee, hostOk);
      }
    }
  }
}
