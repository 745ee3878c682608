/** When a round settles, by a trigger or by the deadline sweep, and when nobody is left to settle it for. */
module CircleSweep {
  import opened Common
  import opened Bitmap
  import opened Vrf
  import opened CircleTypes
  import opened CircleOps
  import opened CircleInvariant
  import opened CircleSettlement
  import opened CircleProofs
  import opened CircleRefunds
  import opened CircleRuns
  import opened CircleConservation
  import opened CirclePayments
  import opened CircleTerms
  import opened CircleStatus

  // ----- what the deadline sweep settles -----

  /** The guards before the sweep resolves anybody. */
  predicate SweepDue(s: Storage) {
    && s.circle.status == Active && s.circle.currentRound < s.circle.totalRounds
    && WindowClosed(s.circle, s.now) && !TooYoung(s.circle, s.now)
  }

  /** What the trigger asks for before it pays: the current round of an active circle that is old enough,
      somebody to resolve, and a closed window or nobody left to wait for. */
  ghost predicate TriggerDue(s: Storage, round: uint32) {
    && s.circle.status == Active && round == s.circle.currentRound && !TooYoung(s.circle, s.now) && CanResolve(s)
    && (WindowClosed(s.circle, s.now) || Awaiting(s.members, CircleOps.RoundContributors(s, round)) == 0)
  }

  /** Whom a trigger of the current round resolves. */
  ghost function Resolvee(hash: Hash, s: Storage): Address
    requires Resolve(hash, s, s.circle.currentRound).Ok?
  {
    Resolve(hash, s, s.circle.currentRound).value.recipient
  }

  lemma ResolveeHasSeat(hash: Hash, s: Storage) returns (k: nat)
    requires Inv(s) && Resolve(hash, s, s.circle.currentRound).Ok?
    ensures k < |s.members| && s.members[k].address == Resolvee(hash, s)
  {
    hide SeatsSound, MarksSound, VrfSound, LogSound, BooksSound, BidsSound, Resolve, CanResolve;
    ResolutionIsSound(hash, s);
    k :| UnpaidSeat(s.circle, s.members, k) && s.members[k].address == Resolvee(hash, s);
  }

  lemma TriggerSettlesExactly(hash: Hash, s: Storage, round: uint32, yieldOk: bool, hostOk: bool)
    requires Inv(s) && s.feeBps <= 10_000
    ensures Resolve(hash, s, s.circle.currentRound).Ok? <==> CanResolve(s)
    ensures TriggerInternal(hash, s, round, yieldOk, hostOk).Ok?
            <==> TriggerDue(s, round) && CanPay(s, Resolvee(hash, s), yieldOk, hostOk)
  {
    hide SeatsSound, MarksSound, VrfSound, LogSound, BooksSound, BidsSound, Resolve, CanResolve, SettlePool, CanPay, WindowClosed, TooYoung, Awaiting,
         CircleOps.RoundContributors;
    ResolvesExactly(hash, s);
    if CanResolve(s) {
      var res := Resolve(hash, s, s.circle.currentRound).value;
      var k := ResolveeHasSeat(hash, s);
      PoolPaysExactly(s, res, k, yieldOk, hostOk);
    }
  }

  lemma {:induction false} HandedGoesByAddress(members: seq<Member>, members': seq<Member>, weights: Weights, net: int128, i: nat)
    requires SameFolk(members, members') && i <= |members| && net > 0
    ensures HandedUpTo(members', weights, net, i) == HandedUpTo(members, weights, net, i)
  {
    if i > 0 {
      HandedGoesByAddress(members, members', weights, net, i - 1);
      assert WeightAt(weights.of, members'[i - 1]) == WeightAt(weights.of, members[i - 1]);
      hide WeightAt, Share;
    }
  }

  /** Strikes change nothing about who would be paid what. */
  lemma SweepingKeepsPayments(s: Storage, recipient: Address, yieldOk: bool, hostOk: bool)
    ensures CanPay(Swept(s, s.circle.currentRound), recipient, yieldOk, hostOk) <==> CanPay(s, recipient, yieldOk, hostOk)
  {
    var w := Swept(s, s.circle.currentRound);
    SweptKeepsCircle(s);
    SweptKeepsReceipts(s);
    SweptKeepsPools(s);
    hide Swept;
    if 0 < NetDue(s) <= I128_MAX {
      SumsGoByReceipts(s, w, NetDue(s), FeeDue(s), recipient);
    }
    hide SumsFit;
  }

  lemma SweptKeepsPools(s: Storage)
    ensures var w := Swept(s, s.circle.currentRound);
            && RoundTotal(w, s.circle.currentRound) == RoundTotal(s, s.circle.currentRound) && w.feeBps == s.feeBps
            && RoundWeights(w) == RoundWeights(s)
  {
    hide SweepUpTo, Weigh;
  }

  lemma SweptKeepsReceipts(s: Storage)
    ensures var w := Swept(s, s.circle.currentRound);
            SameFolk(s.members, w.members) && forall i :: 0 <= i < |s.members| ==> w.members[i].totalReceived == s.members[i].totalReceived
  {
    hide Swept, NoNewStanding, BallotsGrow, StrangersGrow;
    SweptStands(s);
  }

  lemma SumsGoByReceipts(s: Storage, w: Storage, net: int128, fee: int, recipient: Address)
    requires SameFolk(s.members, w.members) && net > 0 && w.circle == s.circle && RoundWeights(w) == RoundWeights(s)
    requires forall i :: 0 <= i < |s.members| ==> w.members[i].totalReceived == s.members[i].totalReceived
    ensures SumsFit(w, net, fee, recipient) <==> SumsFit(s, net, fee, recipient)
  {
    hide RoundWeights, HandedUpTo;
    forall i | 0 <= i <= |s.members|
      ensures Handed(w, net, i) == Handed(s, net, i)
    {
      HandedGoesByAddress(s.members, w.members, RoundWeights(s), net, i);
    }
    assert forall i :: 0 <= i < |s.members| ==> Receipt(w, net, recipient, i) == Receipt(s, net, recipient, i);
    hide Handed, Receipt;
  }

  /** The deadline sweep settles the round exactly when it is due, its strikes leave somebody the payout type can
      resolve, and the guards on the payment hold. Otherwise it fails, and its strikes are rolled back. */
  lemma SweepSettlesExactly(hash: Hash, s: Storage, yieldOk: bool, hostOk: bool)
    requires Reachable(hash, s)
    ensures var w := Swept(s, s.circle.currentRound);
            && (Resolve(hash, w, s.circle.currentRound).Ok? <==> CanResolve(w))
            && (CheckContributionDeadline(hash, s, yieldOk, hostOk).Ok?
                <==> SweepDue(s) && CanResolve(w) && CanPay(s, Resolve(hash, w, s.circle.currentRound).value.recipient, yieldOk, hostOk))
  {
    var w := Swept(s, s.circle.currentRound);
    assert Inv(w) && w.feeBps <= 10_000 by { SweptIsPayable(hash, s); }
    SweptKeepsCircle(s);
    TriggerSettlesExactly(hash, w, s.circle.currentRound, yieldOk, hostOk);
    if CanResolve(w) {
      SweepingKeepsPayments(s, Resolvee(hash, w), yieldOk, hostOk);
    }
    hide Inv, Resolve, CanPay, CanResolve, Swept, WindowClosed, TooYoung, Awaiting, CircleOps.RoundContributors, Reachable, TriggerInternal;
  }

  lemma SweptIsPayable(hash: Hash, s: Storage)
    requires Reachable(hash, s)
    ensures Inv(Swept(s, s.circle.currentRound)) && Swept(s, s.circle.currentRound).feeBps <= 10_000
  {
    hide Inv, Reachable;
    ReachableStatesAreSound(hash, s);
    SweptIsSound(s);
    SweptKeepsPools(s);
    ReachableTermsAreSound(hash, s);
    hide Swept;
  }

  lemma SweptKeepsCircle(s: Storage)
    ensures Swept(s, s.circle.currentRound).circle == s.circle && Swept(s, s.circle.currentRound).now == s.now
  {
  }

  /** No member left to resolve: every seat taken and none of them unpaid and active, or, in a fixed circle,
      the seat whose turn it is. */
  ghost predicate Stuck(s: Storage) {
    || (|s.members| == s.circle.maxMembers && forall i :: !UnpaidSeat(s.circle, s.members, i))
    || (s.circle.payoutType == Fixed && s.circle.currentRound % s.circle.maxMembers < |s.members|
        && !UnpaidSeat(s.circle, s.members, s.circle.currentRound % s.circle.maxMembers))
  }

  /** Seats stay spoken for: nobody becomes unpaid or active again. */
  lemma SpentSeatStays(s: Storage, s': Storage, i: nat)
    requires i < |s.members| && !UnpaidSeat(s.circle, s.members, i)
    requires StandingsOnlyFall(s.members, s'.members) && s'.members[i].position == s.members[i].position
    requires Bit(s.circle.bitmap, s.members[i].position) ==> Bit(s'.circle.bitmap, s.members[i].position)
    ensures !UnpaidSeat(s'.circle, s'.members, i)
  {
  }

  /** From `s` to `s'` no seat is freed and no bit cleared. */
  ghost predicate SpendsOnly(s: Storage, s': Storage) {
    && StandingsOnlyFall(s.members, s'.members)
    && (forall i :: 0 <= i < |s.members| ==> s'.members[i].position == s.members[i].position)
    && (forall p: nat :: Bit(s.circle.bitmap, p) ==> Bit(s'.circle.bitmap, p))
    && s'.circle.maxMembers == s.circle.maxMembers && s'.circle.payoutType == s.circle.payoutType
    && s'.circle.currentRound == s.circle.currentRound && |s'.members| <= s.circle.maxMembers
  }

  lemma SpendingKeepsStuck(s: Storage, s': Storage)
    requires Stuck(s) && SpendsOnly(s, s')
    ensures Stuck(s')
  {
    forall i | 0 <= i < |s.members| && !UnpaidSeat(s.circle, s.members, i)
      ensures !UnpaidSeat(s'.circle, s'.members, i)
    {
      SpentSeatStays(s, s', i);
    }
  }

  lemma MarkingSpendsOnly(b: nat, k: nat, p: nat)
    requires Bit(b, p)
    ensures Bit(SetBit(b, k), p)
  {
    BitAfterSet(b, k, p);
  }

  /** Settling a round needs somebody the resolver can find. */
  lemma SettlingIsNotStuck(s: Storage, s': Storage, k: nat, x: Settlement)
    requires Settles(s, s', k, x)
    ensures !Stuck(s)
  {
  }

  lemma SoundSeats(s: Storage)
    requires Inv(s)
    ensures |s.members| <= s.circle.maxMembers && forall i :: 0 <= i < |s.members| ==> s.members[i].position == i
  {
    hide MarksSound, VrfSound, LogSound, BooksSound, BidsSound;
  }

  /** No settling change is possible in a stuck state, so every change spends at most. */
  lemma StuckMicroSpends(s: Storage, s': Storage)
    requires Inv(s) && Stuck(s) && Micro(s, s')
    ensures SpendsOnly(s, s')
  {
    hide Inv, Micro, Owed, ScanContributors, IsInactiveMember, Settles, PaysShares, NetsPool, Stuck, SetBit, Bit;
    MicroExtends(s, s');
    MicroKeeps(s, s');
    SoundSeats(s);
    SoundSeats(s');
    if k, x :| SettlesRound(s, s', k, x) {
      SettlingIsNotStuck(s, s', k, x);
    }
    MicroCalmOrSettles(s, s');
    forall p: nat | Bit(s.circle.bitmap, p)
      ensures Bit(s'.circle.bitmap, p)
    {
      if k: nat :| s'.circle.bitmap == SetBit(s.circle.bitmap, k) {
        MarkingSpendsOnly(s.circle.bitmap, k, p);
      }
    }
  }

  lemma {:induction false} TraceStaysStuck(t: seq<Storage>, i: nat)
    requires Trace(t) && i < |t| && Stuck(t[0])
    ensures Stuck(t[i]) && t[i].circle.currentRound == t[0].circle.currentRound
  {
    hide Inv, Micro, Stuck, StandingsOnlyFall, Bit;
    if i > 0 {
      TraceStaysStuck(t, i - 1);
      TraceIsSound(t, i - 1);
      StuckMicroSpends(t[i - 1], t[i]);
      SpendingKeepsStuck(t[i - 1], t[i]);
    }
  }

  /** A stuck circle stays so: whatever is called, sweeps included, its current round is never settled. */
  lemma StuckRoundsNeverSettle(hash: Hash, s: Storage, calls: seq<Call>)
    requires Reachable(hash, s) && Stuck(s)
    ensures Stuck(Run(hash, s, calls)) && Run(hash, s, calls).circle.currentRound == s.circle.currentRound
  {
    hide Inv, Micro, Outcome, Stuck;
    ReachableStatesAreSound(hash, s);
    var t := RunTrace(hash, s, calls);
    TraceStaysStuck(t, |t| - 1);
  }

  /** In a full random or fixed circle the strikes of a due sweep leave nobody to resolve exactly when they
      leave it stuck; the sweep then fails whatever the flags. It is rolled back, so the circle itself need not
      be stuck. */
  lemma SweepStallsExactlyWhenStuck(hash: Hash, s: Storage)
    requires Reachable(hash, s) && SweepDue(s) && |s.members| == s.circle.maxMembers
    requires s.circle.payoutType == Random || s.circle.payoutType == Fixed
    ensures var w := Swept(s, s.circle.currentRound);
            && (Resolve(hash, w, w.circle.currentRound).Err? <==> Stuck(w))
            && (Stuck(w) ==> forall yieldOk, hostOk :: CheckContributionDeadline(hash, s, yieldOk, hostOk).Err?)
  {
    hide Reachable, Resolve, CanResolve, Stuck, Swept, CheckContributionDeadline, CanPay;
    var w := Swept(s, s.circle.currentRound);
    SweepSettlesExactly(hash, s, true, true);
    SweptKeepsCircle(s);
    SweptKeepsSeats(s);
    assert CanResolve(w) <==> !Stuck(w) by { FullCircleResolves(w); }
    forall yieldOk, hostOk | Stuck(w)
      ensures CheckContributionDeadline(hash, s, yieldOk, hostOk).Err?
    {
      SweepSettlesExactly(hash, s, yieldOk, hostOk);
    }
  }

  lemma SweptKeepsSeats(s: Storage)
    ensures |Swept(s, s.circle.currentRound).members| == |s.members|
  {
  }

  lemma FullCircleResolves(w: Storage)
    requires |w.members| == w.circle.maxMembers && (w.circle.payoutType == Random || w.circle.payoutType == Fixed)
    ensures CanResolve(w) <==> !Stuck(w)
  {
    var i := w.circle.currentRound % w.circle.maxMembers;
    assert 0 <= i < |w.members|;
  }
}
