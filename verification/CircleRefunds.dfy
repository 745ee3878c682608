/** The drain of losing auction deposits: what one call returns and what it leaves for the next. */
module CircleRefunds {
  import opened Common
  import opened CircleTypes
  import opened CircleOps
  import opened CircleProofs

  /** The bids not placed by the winner, in order. */
  function Losers(bids: seq<Bid>, winner: Address): seq<Bid> {
    if bids == [] then []
    else Losers(bids[..|bids| - 1], winner) + if bids[|bids| - 1].bidder != winner then [bids[|bids| - 1]] else []
  }

  function LosersOn(bids: seq<Bid>, round: uint32, winner: Address): seq<Bid> {
    Losers(BidsOn(bids, round), winner)
  }

  /** The deposits returned for a round so far, in order. */
  function RefundsOf(refunds: seq<Refund>, round: uint32): seq<Bid> {
    if refunds == [] then []
    else
      var f := refunds[|refunds| - 1];
      RefundsOf(refunds[..|refunds| - 1], round) + if f.round == round then [f.bid] else []
  }

  /** What a resolved round owes its losers altogether: deposits returned, then deposits still held. */
  function Owed(s: Storage, round: uint32): seq<Bid>
    requires round in s.winners
  {
    RefundsOf(s.history.refunds, round) + LosersOn(s.bids, round, s.winners[round])
  }

  lemma LosersSnoc(bids: seq<Bid>, b: Bid, winner: Address)
    ensures Losers(bids + [b], winner) == if b.bidder != winner then Losers(bids, winner) + [b] else Losers(bids, winner)
  {
    assert (bids + [b])[..|bids|] == bids;
  }

  lemma LosersOnSnoc(bids: seq<Bid>, b: Bid, round: uint32, winner: Address)
    ensures LosersOn(bids + [b], round, winner)
            == if Loses(b, round, winner) then LosersOn(bids, round, winner) + [b] else LosersOn(bids, round, winner)
  {
    BidsOnSnoc(bids, b, round);
    if b.round == round {
      LosersSnoc(BidsOn(bids, round), b, winner);
    }
  }

  /** The losers seen so far are the ones paid back, at most `cap`, followed by the ones kept and counted. */
  predicate Splits(d: Drain, losers: seq<Bid>, left: seq<Bid>, cap: nat) {
    losers == d.refunded + left && |d.refunded| == Min(cap, |losers|) && d.remaining == |left|
  }

  lemma SplitsNext(d: Drain, losers: seq<Bid>, left: seq<Bid>, b: Bid, round: uint32, winner: Address, cap: nat)
    requires Splits(d, losers, left, cap)
    ensures Splits(DrainNext(d, b, round, winner, cap), if Loses(b, round, winner) then losers + [b] else losers,
                   if Loses(b, round, winner) && |d.refunded| >= cap then left + [b] else left, cap)
  {
  }

  lemma DrainNextLosers(d: Drain, b: Bid, round: uint32, winner: Address, cap: nat)
    ensures LosersOn(DrainNext(d, b, round, winner, cap).kept, round, winner)
            == if Loses(b, round, winner) && |d.refunded| >= cap then LosersOn(d.kept, round, winner) + [b]
               else LosersOn(d.kept, round, winner)
  {
    hide LosersOn;
    LosersOnSnoc(d.kept, b, round, winner);
  }

  /** The refund loop splits the losers into the first `cap`, which it pays back, and the rest. */
  lemma {:induction false} DrainSplits(bids: seq<Bid>, round: uint32, winner: Address, cap: nat, i: nat)
    requires i <= |bids|
    ensures var d := DrainUpTo(bids, round, winner, cap, i);
            Splits(d, LosersOn(bids[..i], round, winner), LosersOn(d.kept, round, winner), cap)
  {
    if i > 0 {
      hide LosersOn, Splits, DrainNext;
      DrainSplits(bids, round, winner, cap, i - 1);
      var before, b := DrainUpTo(bids, round, winner, cap, i - 1), bids[i - 1];
      assert bids[..i - 1] + [b] == bids[..i];
      LosersOnSnoc(bids[..i - 1], b, round, winner);
      DrainNextLosers(before, b, round, winner, cap);
      SplitsNext(before, LosersOn(bids[..i - 1], round, winner), LosersOn(before.kept, round, winner), b, round, winner, cap);
    } else {
      assert bids[..0] == [];
    }
  }

  predicate SameExceptLosers(kept: seq<Bid>, bids: seq<Bid>, round: uint32, winner: Address, r: uint32) {
    && (r != round ==> BidsOn(kept, r) == BidsOn(bids, r))
    && WinnersOwn(BidsOn(kept, round), winner) == WinnersOwn(BidsOn(bids, round), winner)
  }

  /** The bids placed by the winner, in order. */
  function WinnersOwn(bids: seq<Bid>, winner: Address): seq<Bid> {
    if bids == [] then []
    else WinnersOwn(bids[..|bids| - 1], winner) + if bids[|bids| - 1].bidder == winner then [bids[|bids| - 1]] else []
  }

  lemma WinnersOwnSnoc(bids: seq<Bid>, b: Bid, winner: Address)
    ensures WinnersOwn(bids + [b], winner) == if b.bidder == winner then WinnersOwn(bids, winner) + [b] else WinnersOwn(bids, winner)
  {
    assert (bids + [b])[..|bids|] == bids;
  }

  lemma KeepsAfterNext(d: Drain, bids: seq<Bid>, b: Bid, round: uint32, winner: Address, cap: nat, r: uint32)
    requires SameExceptLosers(d.kept, bids, round, winner, r)
    ensures SameExceptLosers(DrainNext(d, b, round, winner, cap).kept, bids + [b], round, winner, r)
  {
    hide BidsOn, WinnersOwn;
    BidsOnSnoc(d.kept, b, r);
    BidsOnSnoc(bids, b, r);
    BidsOnSnoc(d.kept, b, round);
    BidsOnSnoc(bids, b, round);
    WinnersOwnSnoc(BidsOn(d.kept, round), b, winner);
    WinnersOwnSnoc(BidsOn(bids, round), b, winner);
  }

  lemma {:induction false} DrainTakesOnlyLosers(bids: seq<Bid>, round: uint32, winner: Address, cap: nat, i: nat, r: uint32)
    requires i <= |bids|
    ensures SameExceptLosers(DrainUpTo(bids, round, winner, cap, i).kept, bids[..i], round, winner, r)
  {
    if i > 0 {
      hide SameExceptLosers, DrainNext;
      DrainTakesOnlyLosers(bids, round, winner, cap, i - 1, r);
      var before, seen, b := DrainUpTo(bids, round, winner, cap, i - 1), bids[..i - 1], bids[i - 1];
      assert seen + [b] == bids[..i];
      KeepsAfterNext(before, seen, b, round, winner, cap, r);
    } else {
      assert bids[..0] == [];
    }
  }

  lemma {:induction false} DrainPaysLosers(bids: seq<Bid>, round: uint32, winner: Address, cap: nat, i: nat, k: nat)
    requires i <= |bids| && k < |DrainUpTo(bids, round, winner, cap, i).refunded|
    ensures Loses(DrainUpTo(bids, round, winner, cap, i).refunded[k], round, winner)
  {
    if i > 0 && k < |DrainUpTo(bids, round, winner, cap, i - 1).refunded| {
      DrainPaysLosers(bids, round, winner, cap, i - 1, k);
    }
  }

  /** Main result on one call: it returns the first min(limit, 20) losing deposits still held, never the
      winner's, leaves every other bid alone, and counts exactly the losers it leaves behind. */
  lemma RefundReturnsFirstLosers(s: Storage, round: uint32, limit: uint32, r: uint32)
    requires round in s.winners
    ensures var w, d := s.winners[round], RefundDrain(s, round, limit);
            && LosersOn(s.bids, round, w) == d.refunded + LosersOn(d.kept, round, w)
            && |d.refunded| == Min(Min(limit, 20), |LosersOn(s.bids, round, w)|)
            && d.remaining == |LosersOn(d.kept, round, w)|
            && SameExceptLosers(d.kept, s.bids, round, w, r)
            && forall k :: 0 <= k < |d.refunded| ==> Loses(d.refunded[k], round, w)
  {
    hide DrainUpTo, LosersOn, SameExceptLosers, Loses;
    var w, cap := s.winners[round], Min(limit, LOSER_REFUND_BATCH_CAP);
    DrainSplits(s.bids, round, w, cap, |s.bids|);
    DrainTakesOnlyLosers(s.bids, round, w, cap, |s.bids|, r);
    forall k | 0 <= k < |RefundDrain(s, round, limit).refunded|
      ensures Loses(RefundDrain(s, round, limit).refunded[k], round, w)
    {
      DrainPaysLosers(s.bids, round, w, cap, |s.bids|, k);
    }
    assert s.bids[..|s.bids|] == s.bids;
  }

  lemma RefundsOfSnoc(refunds: seq<Refund>, f: Refund, round: uint32)
    ensures RefundsOf(refunds + [f], round) == if f.round == round then RefundsOf(refunds, round) + [f.bid] else RefundsOf(refunds, round)
  {
    assert (refunds + [f])[..|refunds|] == refunds;
  }

  lemma {:induction false} RefundsOfBatch(refunds: seq<Refund>, round: uint32, bids: seq<Bid>, r: uint32)
    ensures RefundsOf(refunds + AsRefunds(round, bids), r) == if r == round then RefundsOf(refunds, r) + bids else RefundsOf(refunds, r)
  {
    if bids == [] {
      assert refunds + AsRefunds(round, bids) == refunds;
    } else {
      var n := |bids| - 1;
      RefundsOfBatch(refunds, round, bids[..n], r);
      RefundsOfSnoc(refunds + AsRefunds(round, bids[..n]), Refund(round, bids[n]), r);
      assert refunds + AsRefunds(round, bids) == refunds + AsRefunds(round, bids[..n]) + [Refund(round, bids[n])];
      assert bids == bids[..n] + [bids[n]];
    }
  }

  /** Paying back moves deposits from held to returned without changing what a round owes altogether. */
  lemma RefundKeepsOwed(s: Storage, round: uint32, limit: uint32, r: uint32)
    requires RefundLosingBids(s, round, limit, true).Ok? && r in s.winners
    ensures Owed(RefundLosingBids(s, round, limit, true).value, r) == Owed(s, r)
  {
    hide RefundDrain, AsRefunds, BidsOn, Losers, SameExceptLosers;
    var d := RefundDrain(s, round, limit);
    RefundReturnsFirstLosers(s, round, limit, r);
    RefundsOfBatch(s.history.refunds, round, d.refunded, r);
    hide RefundsOf, LosersOn;
    if r == round {
      var earlier, left := RefundsOf(s.history.refunds, r), LosersOn(d.kept, r, s.winners[r]);
      assert earlier + d.refunded + left == earlier + (d.refunded + left);
    } else {
      OtherLosersStay(d.kept, s.bids, round, s.winners[round], r, s.winners[r]);
    }
  }

  lemma OtherLosersStay(kept: seq<Bid>, bids: seq<Bid>, round: uint32, winner: Address, r: uint32, w: Address)
    requires SameExceptLosers(kept, bids, round, winner, r) && r != round
    ensures LosersOn(kept, r, w) == LosersOn(bids, r, w)
  {
  }

  /** `n` refund calls for one round in a row. */
  function RefundTimes(s: Storage, round: uint32, limit: uint32, n: nat): Result<Storage, CircleError> {
    if n == 0 then Ok(s)
    else
      var before :- RefundTimes(s, round, limit, n - 1);
      RefundLosingBids(before, round, limit, true)
  }

  /** The drain makes progress: each call brings the number of losers left down by the batch size, to zero. */
  lemma {:induction false} DrainFinishes(s: Storage, round: uint32, limit: uint32, n: nat)
    requires round in s.winners && limit > 0
    ensures RefundTimes(s, round, limit, n).Ok?
    ensures var s' := RefundTimes(s, round, limit, n).value;
            && s'.winners == s.winners
            && |LosersOn(s'.bids, round, s.winners[round])| == SatSub(|LosersOn(s.bids, round, s.winners[round])|, n * Min(limit, 20))
  {
    if n > 0 {
      hide RefundDrain, AsRefunds, LosersOn;
      DrainFinishes(s, round, limit, n - 1);
      var before := RefundTimes(s, round, limit, n - 1).value;
      RefundReturnsFirstLosers(before, round, limit, round);
      assert n * Min(limit, 20) == (n - 1) * Min(limit, 20) + Min(limit, 20);
    }
  }
}
