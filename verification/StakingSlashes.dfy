/** When a slash can push a stake below zero (`execute_slash` checks nothing but the i128 range). */
module StakingSlashes {
  import opened Common
  import opened Tokens
  import opened Staking

  /** An executed slash leaves a negative stake exactly when its notice asks for more than is staked by
      then. */
  lemma ExecuteSlashGoesBelowZeroExactly(s: State, admin: Address, u: Address)
    requires ExecuteSlash(s, admin, u).Ok?
    ensures u in s.notices && u in s.stakes && u in ExecuteSlash(s, admin, u).value.stakes
    ensures ExecuteSlash(s, admin, u).value.stakes[u].amount < 0 <==> s.notices[u].amount > s.stakes[u].amount
  {
  }

  /** Of all calls, only that one takes a stake below zero. */
  lemma OnlyExecuteSlashGoesBelowZero(s: State, c: Call, u: Address)
    requires u in s.stakes ==> s.stakes[u].amount >= 0
    ensures var s' := Settled(s, Outcome(s, c));
            u in s'.stakes && s'.stakes[u].amount < 0
            <==> c.CallExecuteSlash? && c.user == u && Outcome(s, c).Ok? && s.notices[u].amount > s.stakes[u].amount
  {
    hide WeightedDuration, Without, WrapI128, CheckedPower;
    match c
    case CallSlash(ad, x, f) => var out := Slash(s, ad, x, f);
    case CallTopUp(x, a) => var out := TopUp(s, x, a);
    case CallExecuteSlash(ad, x) => var out := ExecuteSlash(s, ad, x);
    case _ =>
  }

  /** A stake that is not negative and that covers the notice against it, if there is one. */
  predicate Covered(s: State, u: Address) {
    u in s.stakes && s.stakes[u].amount >= 0 && (u in s.notices ==> s.notices[u].amount <= s.stakes[u].amount)
  }

  /** The calls that can take a stake away from under its notice. */
  predicate Undercuts(c: Call, u: Address) {
    (c.CallSlash? || c.CallUnstake?) && c.user == u
  }

  lemma StepKeepsCovered(s: State, c: Call, u: Address)
    requires Covered(s, u) && !Undercuts(c, u)
    ensures Covered(Settled(s, Outcome(s, c)), u)
  {
    hide WeightedDuration, Without, WrapI128, CheckedPower, Moved, Credit, OpenPosition;
    if c.CallSlash? || c.CallUnstake? {
      OthersKeepCovered(s, c, u);
    } else {
      hide Slash, Unstake;
      match c
      case CallTopUp(x, a) => var out := TopUp(s, x, a);
      case CallExecuteSlash(ad, x) => var out := ExecuteSlash(s, ad, x);
      case _ =>
    }
  }

  lemma OthersKeepCovered(s: State, c: Call, u: Address)
    requires Covered(s, u) && (c.CallSlash? || c.CallUnstake?) && c.user != u
    ensures Covered(Settled(s, Outcome(s, c)), u)
  {
    hide Without, CheckedPower;
  }

  /** Main result: whatever else happens, a covered stake that is neither slashed directly nor unstaked
      stays, stays covered, and so never goes below zero. */
  lemma {:induction false} CoveredStakesStayCovered(s: State, calls: seq<Call>, u: Address)
    requires Covered(s, u)
    requires forall k :: 0 <= k < |calls| ==> !Undercuts(calls[k], u)
    ensures Covered(Run(s, calls), u)
  {
    if calls != [] {
      hide Outcome, Covered, Undercuts;
      CoveredStakesStayCovered(s, calls[..|calls| - 1], u);
      StepKeepsCovered(Run(s, calls[..|calls| - 1]), calls[|calls| - 1], u);
    }
  }

  /** A freshly opened stake is covered unless an older notice, left behind by an earlier stake of the same
      user, asks for more. */
  lemma OpenedStakesAreCoveredUnlessANoticeOutlived(s: State, u: Address, amount: int128, months: uint32, sequence: uint32)
    requires Stake(s, u, amount, months, sequence).Ok?
    ensures Covered(Stake(s, u, amount, months, sequence).value, u) <==> !(u in s.notices && s.notices[u].amount > amount)
  {
  }
}
