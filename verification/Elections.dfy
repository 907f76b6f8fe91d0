/** Past elections as the elector lists them, and the frozen stakes taken out of them. */
module Elections {
  import opened Options
  import opened Numbers
  import opened Pools

  type Key = Bits256

  /** A validator's pool and frozen stake; the stake is a plain number or a shared mutable integer. */
  datatype PoolEntry<S> = PoolEntry(addr: AccountID, trueStake: S)

  type Table = map<Key, PoolEntry<uint64>>

  /** A parsed past election. `members` is `None` when its dictionary does not parse; stake and bonuses are missing
      when the elector's value is not a number. */
  datatype RawPastElection = RawPastElection(electAt: int, members: Option<Table>, totalStake: Option<int>,
                                             bonuses: Option<int>)

  /** The first election with the given id. */
  method FindElection(elections: seq<RawPastElection>, electAt: int) returns (r: Option<RawPastElection>)
    ensures r == Find(elections, electAt)
  {
    for i := 0 to |elections|
      invariant Find(elections, electAt) == Find(elections[i..], electAt)
    {
      if elections[i].electAt == electAt {
        return Some(elections[i]);
      }
    }
    return None;
  }

  function Find(elections: seq<RawPastElection>, electAt: int): (r: Option<RawPastElection>)
    ensures r.None? <==> forall i :: 0 <= i < |elections| ==> elections[i].electAt != electAt
    ensures r.Some? ==> r.value in elections && r.value.electAt == electAt
  {
    if |elections| == 0 then None
    else if elections[0].electAt == electAt then Some(elections[0])
    else Find(elections[1..], electAt)
  }

  /** The bonuses an election has at a block, if it is listed there with any. */
  function BonusesAt(elections: seq<RawPastElection>, electAt: int): Option<int> {
    match Find(elections, electAt)
    case None => None
    case Some(e) => e.bonuses
  }
}
