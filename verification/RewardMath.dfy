/** What a reward pool pays out, as a function of the stakes: first over validators, then, for a nominator
    pool, over its owner and its nominators. Every division rounds down. */
module RewardMath {
  import opened Options
  import opened Numbers

  const SHARE_DENOMINATOR := 10000

  /** Reward terms of a nominator pool: the owner's share in ten-thousandths and the nominators' deposits. */
  datatype Split = Split(share: nat, amounts: seq<int>)

  /** A validator as the reward pool sees it; `split` is present when the reward is passed on to nominators. */
  datatype Payee = Payee(stake: int, split: Option<Split>)

  predicate NonNegative(xs: seq<int>) {
    forall i :: 0 <= i < |xs| ==> xs[i] >= 0
  }

  predicate ValidSplit(s: Split) {
    NonNegative(s.amounts) && (|s.amounts| > 0 ==> Sum(s.amounts) > 0)
  }

  predicate ValidPayees(ps: seq<Payee>) {
    forall i :: 0 <= i < |ps| ==> ps[i].stake >= 0 && (ps[i].split.Some? ==> ValidSplit(ps[i].split.value))
  }

  function Stakes(ps: seq<Payee>): (r: seq<int>) {
    seq(|ps|, i requires 0 <= i < |ps| => ps[i].stake)
  }

  /** A validator's part of the pool; nothing when there is no stake to divide by. */
  function ValidatorReward(pool: int, stake: int, total: int): int {
    if total > 0 then MulDiv(pool, stake, total) else 0
  }

  /** The pool owner's cut, clamped to the reward itself. */
  function SelfCut(reward: int, share: nat): int {
    Min(MulDiv(reward, share, SHARE_DENOMINATOR), reward)
  }

  function NominatorsPart(reward: int, share: nat): int {
    reward - SelfCut(reward, share)
  }

  function NominatorRewards(reward: int, s: Split): seq<int>
    requires |s.amounts| > 0 ==> Sum(s.amounts) != 0
  {
    if |s.amounts| == 0 then [] else Shares(NominatorsPart(reward, s.share), s.amounts, Sum(s.amounts))
  }

  /** Everything one validator's reward is finally paid out as. */
  function Leaves(reward: int, split: Option<Split>): seq<int>
    requires split.Some? && |split.value.amounts| > 0 ==> Sum(split.value.amounts) != 0
  {
    match split
    case None => [reward]
    case Some(s) => [SelfCut(reward, s.share)] + NominatorRewards(reward, s)
  }

  /** The most a split may lose. A pool without nominators loses the nominators' whole part. */
  function SplitDust(reward: int, split: Option<Split>): int {
    match split
    case None => 0
    case Some(s) => if |s.amounts| == 0 then NominatorsPart(reward, s.share) else Positives(s.amounts) - 1
  }

  function Paid(pool: int, total: int, ps: seq<Payee>): int
    requires ValidPayees(ps)
  {
    if |ps| == 0 then 0 else
      var last := ps[|ps| - 1];
      Paid(pool, total, ps[..|ps| - 1]) + Sum(Leaves(ValidatorReward(pool, last.stake, total), last.split))
  }

  function SplitDustTotal(pool: int, total: int, ps: seq<Payee>): int {
    if |ps| == 0 then 0 else
      var last := ps[|ps| - 1];
      SplitDustTotal(pool, total, ps[..|ps| - 1]) + SplitDust(ValidatorReward(pool, last.stake, total), last.split)
  }

  lemma {:induction false} PaidIsSum(payouts: seq<int>, pool: int, total: int, ps: seq<Payee>)
    requires ValidPayees(ps) && |payouts| == |ps|
    requires forall i :: 0 <= i < |ps| ==>
               payouts[i] == Sum(Leaves(ValidatorReward(pool, ps[i].stake, total), ps[i].split))
    ensures Sum(payouts) == Paid(pool, total, ps)
  {
    if |ps| > 0 {
      PaidIsSum(payouts[..|ps| - 1], pool, total, ps[..|ps| - 1]);
    }
  }

  /** The second level: whatever the reward's sign and even when the share exceeds ten thousand, the nominators'
      part is never negative, and owner plus nominators receive the reward less the split's dust. */
  lemma SplitConserves(reward: int, split: Option<Split>)
    requires split.Some? ==> ValidSplit(split.value)
    ensures split.Some? ==> NominatorsPart(reward, split.value.share) >= 0
    ensures Sum(Leaves(reward, split)) <= reward <= Sum(Leaves(reward, split)) + SplitDust(reward, split)
  {
    match split {
      case None =>
        assert Leaves(reward, split)[..0] == [];
      case Some(s) =>
        var cut := SelfCut(reward, s.share);
        SumConcat([cut], NominatorRewards(reward, s));
        assert [cut][..0] == [];
        if |s.amounts| > 0 {
          ApportionAll(reward - cut, s.amounts);
          SumNonNegative(s.amounts);
        }
    }
  }

  /** The two levels together: no more than the pool is paid, and what is missing is fewer units than validators
      with stake, plus each split's dust. */
  lemma TwoLevelConservation(pool: int, ps: seq<Payee>)
    requires ValidPayees(ps) && Sum(Stakes(ps)) > 0
    ensures Paid(pool, Sum(Stakes(ps)), ps) <= pool
    ensures pool <= Paid(pool, Sum(Stakes(ps)), ps)
                    + (Positives(Stakes(ps)) - 1) + SplitDustTotal(pool, Sum(Stakes(ps)), ps)
  {
    var total := Sum(Stakes(ps));
    ApportionAll(pool, Stakes(ps));
    LeavesFollowShares(pool, total, ps);
  }

  lemma {:induction false} LeavesFollowShares(pool: int, total: int, ps: seq<Payee>)
    requires ValidPayees(ps) && total > 0
    ensures Paid(pool, total, ps) <= Sum(Shares(pool, Stakes(ps), total))
    ensures Sum(Shares(pool, Stakes(ps), total)) <= Paid(pool, total, ps) + SplitDustTotal(pool, total, ps)
  {
    if |ps| > 0 {
      var front, last := ps[..|ps| - 1], ps[|ps| - 1];
      LeavesFollowShares(pool, total, front);
      SplitConserves(MulDiv(pool, last.stake, total), last.split);
      assert Shares(pool, Stakes(ps), total)[..|ps| - 1] == Shares(pool, Stakes(front), total);
    }
  }

  /** Nobody is paid a negative amount out of a non-negative pool. */
  lemma LeavesNonNegative(pool: int, p: Payee, total: int)
    requires pool >= 0 && p.stake >= 0
    requires p.split.Some? ==> ValidSplit(p.split.value)
    ensures NonNegative(Leaves(ValidatorReward(pool, p.stake, total), p.split))
  {
    var reward := ValidatorReward(pool, p.stake, total);
    if total > 0 { MulDivNonNegative(pool, p.stake, total); }
    if p.split.Some? {
      var s := p.split.value;
      MulDivNonNegative(reward, s.share, SHARE_DENOMINATOR);
      if |s.amounts| > 0 {
        forall i | 0 <= i < |s.amounts| ensures NominatorRewards(reward, s)[i] >= 0 {
          MulDivNonNegative(NominatorsPart(reward, s.share), s.amounts[i], Sum(s.amounts));
        }
      }
    }
  }

  lemma MulDivNonNegative(a: int, b: int, c: int)
    requires a >= 0 && b >= 0 && c > 0
    ensures MulDiv(a, b, c) >= 0
  {
    var q := MulDiv(a, b, c);
    assert c * 0 <= a * b < c * (q + 1);
    MulCancel(0, q + 1, c);
  }

  /** More stake never earns less, out of a non-negative pool. */
  lemma MulDivMonotone(a: int, b: int, b': int, c: int)
    requires a >= 0 && b <= b' && c > 0
    ensures MulDiv(a, b, c) <= MulDiv(a, b', c)
  {
    MulMonotone(b, b', a);
    var q, q' := MulDiv(a, b, c), MulDiv(a, b', c);
    assert c * q <= a * b <= a * b' < c * (q' + 1);
    MulCancel(q, q' + 1, c);
  }

  /** Per pool the promised bound, fewer units than nominators, is met exactly when the pool has a nominator or
      the clamp leaves nothing for nominators. */
  lemma SplitLosesLittleIff(reward: int, s: Split)
    requires ValidSplit(s)
    ensures reward - Sum(Leaves(reward, Some(s))) <= Max(|s.amounts| - 1, 0)
       <==> |s.amounts| > 0 || reward == 0
            || (reward > 0 && s.share >= SHARE_DENOMINATOR) || (reward < 0 && s.share <= SHARE_DENOMINATOR)
  {
    SplitConserves(reward, Some(s));
    if |s.amounts| == 0 {
      var cut := SelfCut(reward, s.share);
      assert [cut] + NominatorRewards(reward, s) == [cut] && [cut][..0] == [];
      ClampLeavesNothingIff(reward, s.share);
    } else {
      PositivesAtMost(s.amounts);
    }
  }

  lemma ClampLeavesNothingIff(reward: int, share: nat)
    ensures NominatorsPart(reward, share) == 0
       <==> reward == 0 || (reward > 0 && share >= SHARE_DENOMINATOR) || (reward < 0 && share <= SHARE_DENOMINATOR)
  {
    var q := MulDiv(reward, share, 10000);
    assert q * 10000 <= reward * share < (q + 1) * 10000;
    if reward > 0 {
      if share >= 10000 { MulMonotone(10000, share, reward); } else { MulMonotone(share, 9999, reward); }
    } else if reward < 0 {
      if share <= 10000 { MulMonotone(share, 10000, -reward); } else { MulMonotone(10001, share, -reward); }
    }
  }

  lemma {:induction false} PositivesAtMost(xs: seq<int>)
    ensures Positives(xs) <= |xs|
  {
    if |xs| > 0 { PositivesAtMost(xs[..|xs| - 1]); }
  }

  /** All nominators but one of each split. */
  function OtherNominators(ps: seq<Payee>): int {
    if |ps| == 0 then 0 else
      var last := ps[|ps| - 1];
      OtherNominators(ps[..|ps| - 1]) + if last.split.Some? then |last.split.value.amounts| - 1 else 0
  }

  /** When every nominator pool has a nominator, its dust is fewer units than it has nominators. */
  lemma {:induction false} DustBelowNominators(pool: int, total: int, ps: seq<Payee>)
    requires forall i :: 0 <= i < |ps| && ps[i].split.Some? ==> |ps[i].split.value.amounts| > 0
    ensures SplitDustTotal(pool, total, ps) <= OtherNominators(ps)
  {
    if |ps| > 0 {
      DustBelowNominators(pool, total, ps[..|ps| - 1]);
      var last := ps[|ps| - 1];
      if last.split.Some? { PositivesAtMost(last.split.value.amounts); }
    }
  }

  /** A nominator pool that has no nominators yet: seventy of a hundred units are paid to no one, although one
      validator and no nominator would allow no loss at all. */
  lemma EmptyPoolLosesNominatorsPart()
    ensures var ps := [Payee(5, Some(Split(3000, [])))];
            ValidPayees(ps) && Sum(Stakes(ps)) == 5 && Paid(100, 5, ps) == 30 && Positives(Stakes(ps)) - 1 == 0
  {
    var ps := [Payee(5, Some(Split(3000, [])))];
    assert Stakes(ps) == [5] && [5][..0] == [] && ps[..0] == [];
    assert ValidatorReward(100, 5, 5) == 100 && SelfCut(100, 3000) == 30;
    assert Leaves(100, ps[0].split) == [30] && [30][..0] == [];
  }

  /** A nominator's effective stake: its deposit scaled by the part of the pool's balance that is at stake. */
  function EffectiveStakes(amounts: seq<int>, trueStake: int, totalStake: int): (r: seq<int>)
    requires totalStake != 0
  {
    seq(|amounts|, i requires 0 <= i < |amounts| => MulDiv(amounts[i], trueStake, totalStake))
  }

  /** With a non-negative credit no nominator's effective stake exceeds its deposit, and together they make up the
      effective part of all deposits, less fewer units than there are nominators with a deposit. */
  lemma EffectiveStakesBounded(amounts: seq<int>, trueStake: int, credit: int)
    requires NonNegative(amounts) && trueStake >= 0 && credit >= 0 && trueStake + credit > 0
    ensures var total := trueStake + credit;
            var each := EffectiveStakes(amounts, trueStake, total);
            && (forall i :: 0 <= i < |amounts| ==> 0 <= each[i] <= amounts[i])
            && Sum(each) <= MulDiv(Sum(amounts), trueStake, total)
            && MulDiv(Sum(amounts), trueStake, total) <= Sum(each) + Max(Positives(amounts) - 1, 0)
  {
    var total := trueStake + credit;
    var each := EffectiveStakes(amounts, trueStake, total);
    forall i | 0 <= i < |amounts| ensures 0 <= each[i] <= amounts[i] {
      MulDivNonNegative(amounts[i], trueStake, total);
      MulDivMonotone(amounts[i], trueStake, total, total);
      MulDivWhole(amounts[i], total);
    }
    forall a: int ensures a * trueStake == trueStake * a {}
    assert each == Shares(trueStake, amounts, total);
    Apportion(trueStake, amounts, total);
  }
}
