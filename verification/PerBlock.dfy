/** The reward of a single block: the growth of an election's bonuses since the previous block. */
module PerBlock {
  import opened Options
  import opened Numbers
  import opened RewardMath
  import opened Elections

  /** Bonuses at a block and at the one before it, and what they give for the block: their difference when both are
      known, and otherwise nothing at all. */
  method BlockReward(current: seq<RawPastElection>, previous: seq<RawPastElection>, electionId: int)
    returns (rewardPerBlock: int, prevBlockBonuses: int, currBlockBonuses: int)
    ensures rewardPerBlock == currBlockBonuses - prevBlockBonuses == RewardOf(current, previous, electionId)
    ensures var cur, prev := BonusesAt(current, electionId), BonusesAt(previous, electionId);
            if cur.Some? && prev.Some? then currBlockBonuses == cur.value && prevBlockBonuses == prev.value
            else currBlockBonuses == prevBlockBonuses == 0
  {
    rewardPerBlock, prevBlockBonuses, currBlockBonuses := 0, 0, 0;
    var cur := FindElection(current, electionId);
    if cur.Some? && cur.value.bonuses.Some? {
      var prev := FindElection(previous, electionId);
      if prev.Some? && prev.value.bonuses.Some? {
        rewardPerBlock := cur.value.bonuses.value - prev.value.bonuses.value;
        prevBlockBonuses := prev.value.bonuses.value;
        currBlockBonuses := cur.value.bonuses.value;
      }
    }
  }

  function RewardOf(current: seq<RawPastElection>, previous: seq<RawPastElection>, electionId: int): int {
    var cur, prev := BonusesAt(current, electionId), BonusesAt(previous, electionId);
    if cur.Some? && prev.Some? then cur.value - prev.value else 0
  }

  /** The elections as listed at consecutive blocks, each with bonuses for the election. */
  predicate Recorded(blocks: seq<seq<RawPastElection>>, id: int) {
    forall j :: 0 <= j < |blocks| ==> BonusesAt(blocks[j], id).Some?
  }

  /** How much the bonuses grow from the first block to the last. */
  function Growth(blocks: seq<seq<RawPastElection>>, id: int): int
    requires |blocks| > 0 && Recorded(blocks, id)
  {
    BonusesAt(blocks[|blocks| - 1], id).value - BonusesAt(blocks[0], id).value
  }

  /** The rewards of all blocks but the first. */
  function BlockRewards(blocks: seq<seq<RawPastElection>>, id: int): (r: seq<int>)
    requires |blocks| > 0
  {
    seq(|blocks| - 1, j requires 0 <= j < |blocks| - 1 => RewardOf(blocks[j + 1], blocks[j], id))
  }

  /** Per-block rewards add up to the growth over the whole range. */
  lemma {:induction false} RewardsTelescope(blocks: seq<seq<RawPastElection>>, id: int)
    requires |blocks| > 0 && Recorded(blocks, id)
    ensures Sum(BlockRewards(blocks, id)) == Growth(blocks, id)
  {
    if |blocks| > 1 {
      var front := blocks[..|blocks| - 1];
      RewardsTelescope(front, id);
      assert BlockRewards(blocks, id)[..|blocks| - 2] == BlockRewards(front, id);
    }
  }

  /** What a validator with a fixed stake gets for each block. */
  function BlockShares(blocks: seq<seq<RawPastElection>>, id: int, stake: int, total: int): (r: seq<int>)
    requires |blocks| > 0
  {
    var rewards := BlockRewards(blocks, id);
    seq(|rewards|, j requires 0 <= j < |rewards| => ValidatorReward(rewards[j], stake, total))
  }

  /** The per-block and the per-round view agree up to dust: over `k` consecutive blocks a validator's rounded block
      shares never exceed its share of the whole growth, and fall short of it by less than `k`. */
  lemma PerBlockAgreesWithRound(blocks: seq<seq<RawPastElection>>, id: int, stake: int, total: int)
    requires |blocks| > 1 && Recorded(blocks, id) && total > 0
    ensures var listed := Sum(BlockShares(blocks, id, stake, total));
            listed <= ValidatorReward(Growth(blocks, id), stake, total) < listed + (|blocks| - 1)
  {
    var rewards := BlockRewards(blocks, id);
    RewardsTelescope(blocks, id);
    SumScaled(stake, rewards);
    forall j | 0 <= j < |rewards| ensures MulDiv(rewards[j], stake, total) == Scaled(stake, rewards)[j] / total {
      assert rewards[j] * stake == stake * rewards[j];
    }
    assert BlockShares(blocks, id, stake, total) == Floors(Scaled(stake, rewards), total);
    FloorSum(Scaled(stake, rewards), total);
    InexactAtMost(Scaled(stake, rewards), total);
    assert stake * Sum(rewards) == Sum(rewards) * stake;
  }

  lemma {:induction false} InexactAtMost(xs: seq<int>, t: int)
    requires t != 0
    ensures Inexact(xs, t) <= |xs|
  {
    if |xs| > 0 { InexactAtMost(xs[..|xs| - 1], t); }
  }
}
