/** The time-weighted split of a random circle's payout: when it conserves the net amount, by how much
    it rounds, and exactly when saturated weights make it hand out more than there is. */
module CircleConservation {
  import opened Common
  import opened CircleTypes
  import opened CircleOps
  import opened CircleInvariant
  import opened CircleSettlement

  // ----- weights -----

  /** No member contributed twice to the round. */
  ghost predicate OncePerRound(log: seq<Contribution>, round: uint32) {
    forall i, j :: 0 <= i < j < |log| && log[i].round == round && log[j].round == round ==> log[i].member != log[j].member
  }

  /** The map holds each contributor's own weight, and the total is the exact sum, saturated once. */
  lemma {:induction false} WeighIsExactUpToSaturation(log: seq<Contribution>, round: uint32, now: uint64)
    requires OncePerRound(log, round)
    ensures Weigh(log, round, now).total == Min(U128_MAX, SumMap(Weigh(log, round, now).of))
    ensures forall m :: m in Weigh(log, round, now).of <==> Contributed(log, m, round)
    ensures forall i :: 0 <= i < |log| && log[i].round == round ==>
              log[i].member in Weigh(log, round, now).of && Weigh(log, round, now).of[log[i].member] == WeightOf(log[i], now)
  {
    if log != [] {
      hide WeightOf;
      var n := |log| - 1;
      WeighIsExactUpToSaturation(log[..n], round, now);
      var c, earlier := log[n], Weigh(log[..n], round, now);
      assert log[..n] + [c] == log;
      forall m
        ensures Contributed(log, m, round) <==> Contributed(log[..n], m, round) || (c.member == m && c.round == round)
      {
        ContributedSnoc(log[..n], c, m, round);
      }
      if c.round == round {
        assert c.member !in earlier.of;
        SumMapUpdate(earlier.of, c.member, WeightOf(c, now));
        SumMapNonNegative(earlier.of);
      }
    }
  }

  // ----- sums over seats -----

  function WeightAt(of: map<Address, uint128>, m: Member): uint128 {
    if m.address in of then of[m.address] else 0
  }

  /** The weights of the first `i` members. */
  function WeightUpTo(members: seq<Member>, of: map<Address, uint128>, i: nat): nat
    requires i <= |members|
  {
    if i == 0 then 0 else WeightUpTo(members, of, i - 1) + WeightAt(of, members[i - 1])
  }

  function PositiveUpTo(members: seq<Member>, of: map<Address, uint128>, i: nat): nat
    requires i <= |members|
  {
    if i == 0 then 0 else PositiveUpTo(members, of, i - 1) + if WeightAt(of, members[i - 1]) > 0 then 1 else 0
  }

  lemma {:induction false} WeightUpToWithout(members: seq<Member>, of: map<Address, uint128>, a: Address, i: nat)
    requires i <= |members| && forall j :: 0 <= j < i ==> members[j].address != a
    ensures WeightUpTo(members, of - {a}, i) == WeightUpTo(members, of, i)
  {
    if i > 0 {
      WeightUpToWithout(members, of, a, i - 1);
    }
  }

  /** Every weight belongs to one seat, so the seats' weights add up to the map's. */
  lemma {:induction false} SeatsCarryAllWeight(members: seq<Member>, of: map<Address, uint128>, i: nat)
    requires Seated(members) && i <= |members|
    requires forall a :: a in of ==> exists j :: 0 <= j < i && members[j].address == a
    ensures WeightUpTo(members, of, i) == SumMap(of)
  {
    if i == 0 {
      assert of == map[];
    } else {
      var a := members[i - 1].address;
      forall b | b in of - {a}
        ensures exists j :: 0 <= j < i - 1 && members[j].address == b
      {
        var j :| 0 <= j < i && members[j].address == b;
        assert j < i - 1;
      }
      SeatsCarryAllWeight(members, of - {a}, i - 1);
      WeightUpToWithout(members, of, a, i - 1);
      SumMapRemove(of, a);
    }
  }

  lemma {:induction false} WeightUpToMonotone(members: seq<Member>, of: map<Address, uint128>, i: nat, j: nat)
    requires i <= j <= |members|
    ensures WeightUpTo(members, of, i) <= WeightUpTo(members, of, j)
    decreases j
  {
    if i < j {
      WeightUpToMonotone(members, of, i, j - 1);
    }
  }

  // ----- one share -----

  /** The floored quotient's remainder lies below the divisor. */
  lemma FlooredShare(product: nat, total: nat) returns (share: nat)
    requires total > 0
    ensures share == product / total && 0 <= product - share * total < total
  {
    share := product / total;
    FloorBounds(product, total);
  }

  lemma QuotientAtMost(p: nat, q: nat, total: nat)
    requires total > 0 && p <= q * total
    ensures p / total <= q
  {
    FloorBounds(p, total);
    assert (q - p / total) * total >= 0;
    FactorNonNegative(q - p / total, total);
  }

  lemma FactorNonNegative(x: int, t: int)
    requires t > 0 && x * t >= 0
    ensures x >= 0
  {
  }

  /** A share is at most its exact proportion; it is short by less than one unit unless the product saturates. */
  lemma ShareBounds(net: int128, w: uint128, total: uint128, distributed: int)
    requires net > 0 && 0 < total && w <= total
    ensures 0 <= Share(net, w, total, distributed) <= net
    ensures Share(net, w, total, distributed) * total <= net * w
    ensures net * w <= U128_MAX ==> net * w - Share(net, w, total, distributed) * total < total
  {
    if distributed == 0 && w == total {
    } else {
      var p := SatMulU128(net, w);
      assert net * w <= net * total;
      QuotientAtMost(p, net, total);
      var share := FlooredShare(p, total);
      WrapIsExactWhenItFits(share);
    }
  }

  // ----- the whole distribution -----

  /** What the distribution hands out to the first `i` members. */
  function HandedUpTo(members: seq<Member>, weights: Weights, net: int128, i: nat): int
    requires i <= |members| && net > 0
  {
    if i == 0 || weights.total == 0 then 0
    else
      var before := HandedUpTo(members, weights, net, i - 1);
      before + Max(0, Share(net, WeightAt(weights.of, members[i - 1]), weights.total, before))
  }

  lemma {:induction false} DistributionHands(members: seq<Member>, d: Dist, weights: Weights, net: int128, info: RoundInfo, i: nat)
    requires Seated(members) && d.members == members && d.distributed == 0 && net > 0 && i <= |members|
    requires DistributeUpTo(d, weights, net, info, i).Ok?
    ensures DistributeUpTo(d, weights, net, info, i).value.distributed == HandedUpTo(members, weights, net, i)
  {
    if i > 0 {
      hide Credit, Share, WrapI128;
      DistributionHands(members, d, weights, net, info, i - 1);
      DistributionAccounts(members, d, weights, net, info, i - 1);
      var before := DistributeUpTo(d, weights, net, info, i - 1).value;
      assert before.members[i - 1].address == members[i - 1].address;
      if members[i - 1].address !in weights.of && weights.total > 0 {
        NoWeightNoShare(net, weights.total, before.distributed);
      }
    }
  }

  lemma NoWeightNoShare(net: int128, total: uint128, distributed: int)
    requires net > 0 && total > 0
    ensures Share(net, 0, total, distributed) == 0
  {
    hide SatMulU128, WrapI128;
    assert SatMulU128(net, 0) == 0 && 0 / total == 0;
    WrapIsExactWhenItFits(0);
  }

  /** Handing out by exact weights never exceeds the exact proportion, and falls short of it by less than
      one unit for each contributor with weight. */
  lemma {:induction false} HandedBounds(members: seq<Member>, weights: Weights, net: int128, i: nat)
    requires i <= |members| && net > 0 && weights.total > 0
    requires WeightUpTo(members, weights.of, |members|) <= weights.total
    ensures 0 <= HandedUpTo(members, weights, net, i)
    ensures HandedUpTo(members, weights, net, i) * weights.total <= net * WeightUpTo(members, weights.of, i)
    ensures (forall a :: a in weights.of ==> net * weights.of[a] <= U128_MAX) ==>
              net * WeightUpTo(members, weights.of, i) - HandedUpTo(members, weights, net, i) * weights.total
              <= (weights.total - 1) * PositiveUpTo(members, weights.of, i)
  {
    if i > 0 {
      HandedBounds(members, weights, net, i - 1);
      WeightUpToMonotone(members, weights.of, i, |members|);
      var w, before := WeightAt(weights.of, members[i - 1]), HandedUpTo(members, weights, net, i - 1);
      var share := Share(net, w, weights.total, before);
      ShareBounds(net, w, weights.total, before);
      NoWeightNoShare(net, weights.total, before);
      hide Share;
      Distribute1(before, share, weights.total);
      Distribute1(WeightUpTo(members, weights.of, i - 1), w, net);
      Distribute1(PositiveUpTo(members, weights.of, i - 1), if w > 0 then 1 else 0, weights.total - 1);
    }
  }

  lemma Distribute1(a: int, b: int, c: int)
    ensures (a + b) * c == a * c + b * c && c * (a + b) == c * a + c * b
  {
  }

  /** Exact weights: what is handed out is at most the net amount; with fitting products the dust left over
      is less than the number of contributors with weight. */
  lemma ExactWeightsConserve(members: seq<Member>, weights: Weights, net: int128)
    requires net > 0 && weights.total == WeightUpTo(members, weights.of, |members|)
    ensures 0 <= HandedUpTo(members, weights, net, |members|) <= net
    ensures weights.total > 0 && (forall a :: a in weights.of ==> net * weights.of[a] <= U128_MAX) ==>
              net - HandedUpTo(members, weights, net, |members|) < PositiveUpTo(members, weights.of, |members|)
  {
    if weights.total > 0 {
      var handed, positive := HandedUpTo(members, weights, net, |members|), PositiveUpTo(members, weights.of, |members|);
      HandedBounds(members, weights, net, |members|);
      CancelTotal(net, handed, weights.total);
      if forall a :: a in weights.of ==> net * weights.of[a] <= U128_MAX {
        SomeWeightIsPositive(members, weights.of, |members|);
        DustBound(net - handed, positive, weights.total);
      }
    }
  }

  lemma CancelTotal(net: int, handed: int, total: int)
    requires total > 0 && handed * total <= net * total
    ensures handed <= net && (net - handed) * total == net * total - handed * total
  {
    assert (net - handed) * total == net * total - handed * total;
    FactorNonNegative(net - handed, total);
  }

  lemma DustBound(dust: int, positive: nat, total: int)
    requires total > 0 && positive > 0 && dust * total <= (total - 1) * positive
    ensures dust < positive
  {
    assert (total - 1) * positive == total * positive - positive;
    assert (positive - dust) * total >= positive;
    FactorPositive(positive - dust, total);
  }

  lemma FactorPositive(x: int, t: int)
    requires t > 0 && x * t > 0
    ensures x > 0
  {
  }

  lemma {:induction false} SomeWeightIsPositive(members: seq<Member>, of: map<Address, uint128>, i: nat)
    requires i <= |members| && WeightUpTo(members, of, i) > 0
    ensures PositiveUpTo(members, of, i) > 0
  {
    if WeightUpTo(members, of, i - 1) > 0 {
      SomeWeightIsPositive(members, of, i - 1);
    }
  }

  // ----- saturated weights -----

  /** Once the total saturates, a member is handed something exactly when the product saturates too. */
  predicate Takes(of: map<Address, uint128>, net: int128, m: Member) {
    net * WeightAt(of, m) >= U128_MAX
  }

  function TakersUpTo(members: seq<Member>, of: map<Address, uint128>, net: int128, i: nat): nat
    requires i <= |members|
  {
    if i == 0 then 0 else TakersUpTo(members, of, net, i - 1) + if Takes(of, net, members[i - 1]) then 1 else 0
  }

  /** Whether the first member to take anything has the whole saturated total as their own weight. */
  predicate FirstTakerFull(members: seq<Member>, of: map<Address, uint128>, net: int128, i: nat)
    requires i <= |members|
  {
    if i == 0 then false
    else if TakersUpTo(members, of, net, i - 1) > 0 then FirstTakerFull(members, of, net, i - 1)
    else Takes(of, net, members[i - 1]) && WeightAt(of, members[i - 1]) == U128_MAX
  }

  lemma QuotientByMax(p: uint128)
    ensures p / U128_MAX == if p == U128_MAX then 1 else 0
  {
  }

  lemma SaturatedShare(net: int128, w: uint128, distributed: int)
    requires net > 0
    ensures Share(net, w, U128_MAX, distributed)
            == if distributed == 0 && w == U128_MAX then net else if net * w >= U128_MAX then 1 else 0
  {
    assert 0 <= net * w;
    hide WrapI128;
    WrapIsExactWhenItFits(0);
    WrapIsExactWhenItFits(1);
    QuotientByMax(SatMulU128(net, w));
  }

  /** The first taker gets everything or one unit, every later one a unit. */
  lemma {:induction false} SaturatedHands(members: seq<Member>, weights: Weights, net: int128, i: nat)
    requires i <= |members| && net > 0 && weights.total == U128_MAX
    ensures HandedUpTo(members, weights, net, i)
            == if TakersUpTo(members, weights.of, net, i) == 0 then 0
               else (if FirstTakerFull(members, weights.of, net, i) then net else 1) + TakersUpTo(members, weights.of, net, i) - 1
  {
    if i > 0 {
      SaturatedHands(members, weights, net, i - 1);
      var w := WeightAt(weights.of, members[i - 1]);
      SaturatedShare(net, w, HandedUpTo(members, weights, net, i - 1));
      assert w == U128_MAX ==> net * w >= U128_MAX;
      hide Share;
    }
  }

  // ----- a settled round of a random circle -----

  function RoundWeights(s: Storage): Weights {
    Weigh(s.contributions, s.circle.currentRound, s.now)
  }

  /** The guard a caller can evaluate: the contributors' weights together fit the total's width. */
  ghost predicate WeightsFit(s: Storage) {
    SumMap(RoundWeights(s).of) <= U128_MAX
  }

  ghost predicate Overpays(s: Storage, net: int128) {
    var of, n := RoundWeights(s).of, |s.members|;
    && !WeightsFit(s)
    && (if FirstTakerFull(s.members, of, net, n) then TakersUpTo(s.members, of, net, n) >= 2 else TakersUpTo(s.members, of, net, n) > net)
  }

  lemma SharedIsHanded(s: Storage, x: Settlement)
    requires Seated(s.members) && s.circle.payoutType == Random && x.net > 0 && SharedNow(s, x).Ok?
    ensures SharedNow(s, x).value.distributed == HandedUpTo(s.members, RoundWeights(s), x.net, |s.members|)
  {
    hide DistributeUpTo, Weigh, HandedUpTo;
    var info := RoundInfo(s.circle.currentRound, Random, s.now);
    var start := Dist(s.members, 0, s.payouts + [PayoutRecord(x.recipient, info.round, x.net, x.fee, Random, s.now)]);
    DistributionHands(s.members, start, RoundWeights(s), x.net, info, |s.members|);
  }

  lemma WeightsOfSoundState(s: Storage)
    requires SeatsSound(s) && LogSound(s)
    ensures RoundWeights(s).total == Min(U128_MAX, SumMap(RoundWeights(s).of))
    ensures WeightUpTo(s.members, RoundWeights(s).of, |s.members|) == SumMap(RoundWeights(s).of)
  {
    hide CachesMatch, Weigh;
    WeighIsExactUpToSaturation(s.contributions, s.circle.currentRound, s.now);
    var of := RoundWeights(s).of;
    forall a | a in of
      ensures exists j :: 0 <= j < |s.members| && s.members[j].address == a
    {
      var i :| 0 <= i < |s.contributions| && s.contributions[i].member == a && s.contributions[i].round == s.circle.currentRound;
      assert HasMember(s.members, s.contributions[i].member);
    }
    SeatsCarryAllWeight(s.members, of, |s.members|);
  }

  /** What a paying round rounds off: the resolved recipient gets it on top of their own share. */
  function Dust(s: Storage, net: int128): int
    requires net > 0
  {
    net - HandedUpTo(s.members, RoundWeights(s), net, |s.members|)
  }

  /** Contributors whose contribution has been held for some time. */
  function WeightyContributors(s: Storage): nat {
    PositiveUpTo(s.members, RoundWeights(s).of, |s.members|)
  }

  /** When the weights fit, a paying round of a random circle pays out exactly its net amount, shares and
      dust together; when the products fit too, the dust is less than the number of weighty contributors. */
  lemma SplitConserves(s: Storage, x: Settlement)
    requires SeatsSound(s) && LogSound(s) && s.circle.payoutType == Random && x.net > 0 && PaysShares(s, x)
    requires WeightsFit(s)
    ensures x.paid == x.net && 0 <= Dust(s, x.net) <= x.net
    ensures RoundWeights(s).total > 0 && (forall a :: a in RoundWeights(s).of ==> x.net * RoundWeights(s).of[a] <= U128_MAX) ==>
              Dust(s, x.net) < WeightyContributors(s)
  {
    hide SeatsSound, LogSound, Weigh;
    assert Seated(s.members) by { SeatsGiveSeated(s); }
    WeightsOfSoundState(s);
    SharedIsHanded(s, x);
    ExactWeightsConserve(s.members, RoundWeights(s), x.net);
    hide HandedUpTo, Shared;
  }

  /** The exact condition for paying out more than the net amount: the weights do not fit, and either two
      contributors have saturated products and the first of them carries the whole saturated total, or more
      contributors have saturated products than there are net units. */
  lemma OverpaysExactlyWhenSaturated(s: Storage, x: Settlement)
    requires SeatsSound(s) && LogSound(s) && s.circle.payoutType == Random && x.net > 0 && PaysShares(s, x)
    ensures x.paid > x.net <==> Overpays(s, x.net)
  {
    if WeightsFit(s) {
      SplitConserves(s, x);
    } else {
      hide SeatsSound, LogSound, Weigh;
      assert Seated(s.members) by { SeatsGiveSeated(s); }
      WeightsOfSoundState(s);
      SharedIsHanded(s, x);
      SaturatedHands(s.members, RoundWeights(s), x.net, |s.members|);
      hide HandedUpTo, Shared;
    }
  }
}
