/** Validator rows and their rewards. Amounts are mutable `big.Int` objects, as in the service: the pool map is
    shared with other requests, so what these methods may change is part of what they promise. */
module Rewards {
  import opened Options
  import opened Numbers
  import opened Sorting
  import opened Pools
  import opened Elections
  import opened RewardMath

  class BigInt {
    var v: int

    constructor (x: int)
      ensures v == x
    {
      v := x;
    }

    method Set(x: BigInt)
      modifies this
      ensures v == old(x.v)
    {
      v := x.v;
    }

    method Add(x: BigInt, y: BigInt)
      modifies this
      ensures v == old(x.v) + old(y.v)
    {
      v := x.v + y.v;
    }

    method Sub(x: BigInt, y: BigInt)
      modifies this
      ensures v == old(x.v) - old(y.v)
    {
      v := x.v - y.v;
    }
  }

  /** Works on fresh values only: the operands are left as they are. */
  method MulDivInt(a: BigInt, b: BigInt, c: BigInt) returns (r: BigInt)
    requires c.v != 0
    ensures fresh(r) && r.v == MulDiv(a.v, b.v, c.v)
  {
    r := new BigInt(MulDiv(a.v, b.v, c.v));
  }

  /** The shared pool map: each entry holds an integer of its own. */
  type PoolMap = map<Key, PoolEntry<BigInt>>

  /** A validator row; `extra` is what an embedding row adds to it. */
  datatype Row<X> = Row(pubkey: Key, trueStake: BigInt, pool: Option<AccountID>, extra: X)

  /** What a row says, as a value. */
  datatype Fact = Fact(pubkey: Key, stake: int, pool: Option<AccountID>)

  ghost function FactOf<X>(r: Row<X>): Fact
    reads r.trueStake
  {
    Fact(r.pubkey, r.trueStake.v, r.pool)
  }

  ghost function Facts<X>(rows: seq<Row<X>>): (fs: seq<Fact>)
    reads set r | r in rows :: r.trueStake
    ensures |fs| == |rows|
    ensures forall i :: 0 <= i < |rows| ==> fs[i] == FactOf(rows[i])
  {
    seq(|rows|, i requires 0 <= i < |rows| reads set r | r in rows :: r.trueStake => FactOf(rows[i]))
  }

  function StakeOf(f: Fact): int { f.stake }

  function FactStakes(fs: seq<Fact>): (r: seq<int>) {
    Map(fs, StakeOf)
  }

  ghost predicate Descending(fs: seq<Fact>) {
    forall i, j :: 0 <= i < j < |fs| ==> fs[i].stake >= fs[j].stake
  }

  ghost function PoolInts(pools: PoolMap): set<BigInt> {
    set k | k in pools :: pools[k].trueStake
  }

  /** What the pool map says about a validator: no pool means no stake. */
  ghost function Expected(k: Key, pools: PoolMap): Fact
    reads PoolInts(pools)
  {
    if k in pools then Fact(k, pools[k].trueStake.v, Some(pools[k].addr)) else Fact(k, 0, None)
  }

  ghost function ExpectedAll(ks: seq<Key>, pools: PoolMap): (fs: seq<Fact>)
    reads PoolInts(pools)
    ensures |fs| == |ks|
    ensures forall i :: 0 <= i < |ks| ==> fs[i] == Expected(ks[i], pools)
  {
    seq(|ks|, i requires 0 <= i < |ks| reads PoolInts(pools) => Expected(ks[i], pools))
  }

  function FactIn<X>(p: (Fact, Row<X>)): Fact { p.0 }

  function StakeDownwards<X>(p: (Fact, Row<X>)): int { -p.0.stake }

  /** Orders rows, each paired with what it says, by stake. */
  function Ranked<X>(keyed: seq<(Fact, Row<X>)>): (r: seq<(Fact, Row<X>)>)
    ensures |r| == |keyed|
    ensures forall i :: 0 <= i < |r| ==> r[i] in keyed
    ensures Descending(Map(r, FactIn))
    ensures multiset(Map(r, FactIn)) == multiset(Map(keyed, FactIn))
  {
    var r := Sort(keyed, StakeDownwards);
    MapPermutation(r, keyed, FactIn);
    SamePermutation(r, keyed);
    r
  }

  lemma SamePermutation<T>(xs: seq<T>, ys: seq<T>)
    requires multiset(xs) == multiset(ys)
    ensures |xs| == |ys|
    ensures forall i :: 0 <= i < |xs| ==> xs[i] in ys
  {
    assert |xs| == |multiset(xs)| == |multiset(ys)| == |ys|;
    forall i | 0 <= i < |xs| ensures xs[i] in ys {
      assert xs[i] in multiset(ys);
    }
  }

  method Keyed<X>(a: array<Row<X>>) returns (keyed: seq<(Fact, Row<X>)>)
    ensures |keyed| == a.Length
    ensures forall j :: 0 <= j < a.Length ==> keyed[j] == (FactOf(a[j]), a[j])
  {
    keyed := [];
    for i := 0 to a.Length
      invariant |keyed| == i
      invariant forall j :: 0 <= j < i ==> keyed[j] == (FactOf(a[j]), a[j])
    {
      keyed := keyed + [(Fact(a[i].pubkey, a[i].trueStake.v, a[i].pool), a[i])];
    }
  }

  method CopyRows<X>(sorted: seq<(Fact, Row<X>)>, a: array<Row<X>>)
    requires |sorted| == a.Length
    modifies a
    ensures forall j :: 0 <= j < a.Length ==> a[j] == sorted[j].1
  {
    for i := 0 to a.Length
      invariant forall j :: 0 <= j < i ==> a[j] == sorted[j].1
    {
      a[i] := sorted[i].1;
    }
  }

  /** Sorts rows in place by true stake, largest first; equal stakes in any order. */
  method SortByStake<X>(a: array<Row<X>>)
    modifies a
    ensures Descending(Facts(a[..]))
    ensures forall i :: 0 <= i < a.Length ==> a[i] in old(a[..])
    ensures multiset(Facts(a[..])) == old(multiset(Facts(a[..])))
  {
    ghost var rows := a[..];
    var keyed := Keyed(a);
    PairedFacts(a[..], keyed);
    var sorted := Ranked(keyed);
    CopyRows(sorted, a);
    forall i | 0 <= i < a.Length ensures a[i] in rows && FactOf(a[i]) == sorted[i].0 {
      assert sorted[i] in keyed;
    }
    PairedFacts(a[..], sorted);
  }

  lemma PairedFacts<X>(rows: seq<Row<X>>, paired: seq<(Fact, Row<X>)>)
    requires |rows| == |paired| && forall i :: 0 <= i < |rows| ==> paired[i].0 == FactOf(rows[i])
    ensures Map(paired, FactIn) == Facts(rows)
  {
  }

  /** The total stake of the validators, accumulated in an integer of its own. */
  method TotalStake(validators: seq<Key>, pools: PoolMap) returns (total: BigInt)
    ensures fresh(total) && total.v == Sum(FactStakes(ExpectedAll(validators, pools)))
  {
    ghost var want := ExpectedAll(validators, pools);
    total := new BigInt(0);
    for i := 0 to |validators|
      invariant fresh(total) && ExpectedAll(validators, pools) == want
      invariant total.v == Sum(FactStakes(want[..i]))
    {
      assert FactStakes(want[..i + 1])[..i] == FactStakes(want[..i]);
      if validators[i] in pools {
        total.Add(total, pools[validators[i]].trueStake);
      }
    }
    assert want[..|validators|] == want;
  }

  /** One row per validator, largest stake first, and their total. Nothing that existed before is changed, and no
      row shares an integer with the pool map. */
  method BuildValidatorRows(validators: seq<Key>, pools: PoolMap)
    returns (rows: array<Row<()>>, total: BigInt)
    ensures fresh(rows) && fresh(total) && rows.Length == |validators|
    ensures forall i :: 0 <= i < rows.Length ==> fresh(rows[i].trueStake)
    ensures multiset(Facts(rows[..])) == multiset(ExpectedAll(validators, pools))
    ensures Descending(Facts(rows[..]))
    ensures total.v == Sum(FactStakes(Facts(rows[..])))
  {
    ghost var want := ExpectedAll(validators, pools);
    total := TotalStake(validators, pools);
    assert ExpectedAll(validators, pools) == want;
    rows := SortedRows(validators, pools);
    assert ExpectedAll(validators, pools) == want;
    SameTotalStake(Facts(rows[..]), want);
  }

  method SortedRows(validators: seq<Key>, pools: PoolMap) returns (rows: array<Row<()>>)
    ensures fresh(rows) && rows.Length == |validators|
    ensures forall i :: 0 <= i < rows.Length ==> fresh(rows[i].trueStake)
    ensures multiset(Facts(rows[..])) == old(multiset(ExpectedAll(validators, pools)))
    ensures Descending(Facts(rows[..]))
  {
    rows := FillRows(validators, pools);
    ghost var filled := rows[..];
    SortByStake(rows);
    assert forall i :: 0 <= i < rows.Length ==> rows[i] in filled;
  }

  lemma SameTotalStake(fs: seq<Fact>, gs: seq<Fact>)
    requires multiset(fs) == multiset(gs)
    ensures Sum(FactStakes(fs)) == Sum(FactStakes(gs))
  {
    MapPermutation(fs, gs, StakeOf);
    SumPermutation(FactStakes(fs), FactStakes(gs));
  }

  method FillRows(validators: seq<Key>, pools: PoolMap) returns (rows: array<Row<()>>)
    ensures fresh(rows) && rows.Length == |validators|
    ensures forall i :: 0 <= i < rows.Length ==> fresh(rows[i].trueStake)
    ensures Facts(rows[..]) == old(ExpectedAll(validators, pools))
  {
    ghost var want := ExpectedAll(validators, pools);
    var zero := new BigInt(0);
    rows := new Row<()>[|validators|](_ => Row(0, zero, None, ()));
    for i := 0 to |validators|
      invariant fresh(rows) && ExpectedAll(validators, pools) == want
      invariant forall j :: 0 <= j < rows.Length ==> fresh(rows[j].trueStake)
      invariant forall j :: 0 <= j < i ==> FactOf(rows[j]) == want[j]
    {
      var k := validators[i];
      var stake := new BigInt(0);
      if k in pools {
        stake.Set(pools[k].trueStake);
      }
      rows[i] := Row(k, stake, if k in pools then Some(pools[k].addr) else None, ());
    }
    assert Facts(rows[..]) == want;
  }

  // ---- rewards ----

  /** What a validator's pool is looked up in: the type cache, the accounts' states, and the elector's answers to
      `compute_returned_stake`, `None` standing for a failed call. */
  datatype Lookups = Lookups(cache: PoolCache, accounts: AccountID -> Account, credits: AccountID -> Option<int>)

  function AnswerFor(pool: AccountID, look: Lookups): Answer {
    Lookup(look.cache, pool, look.accounts(pool))
  }

  datatype NominatorReward = NominatorReward(
    address: Bits256, weight: real, reward: int, effectiveStake: int, stake: int)

  datatype RewardRecord = RewardRecord(
    rank: nat, pubkey: Key, effectiveStake: BigInt, weight: real, reward: BigInt, pool: Option<AccountID>,
    info: PoolInfo, totalStake: Option<int>, meta: Option<PoolMeta>, nominators: seq<NominatorReward>)

  /** What is reported about a nominator pool itself; the share is a fraction here. */
  datatype PoolMeta = PoolMeta(validatorStake: Option<int>, nominatorsStake: Option<int>, rewardShare: real,
                               nominatorsCount: nat)

  function NominatorPoolMeta(d: PoolData): PoolMeta {
    PoolMeta(d.validatorAmount, d.nominatorsAmount, d.rewardShare as real / 10000.0, d.nominatorsCount)
  }

  function Weight(stake: int, total: int): real {
    if total <= 0 then 0.0 else stake as real / total as real
  }

  /** The nominator-pool data by which a reward is split, if it is split at all. */
  function SplitData(shallow: bool, pool: Option<AccountID>, look: Lookups): Option<PoolData> {
    if shallow || pool.None? then None else NominatorData(AnswerFor(pool.value, look))
  }

  /** The balance a pool holds besides its stake; zero when the elector could not be asked. */
  function CreditOf(pool: AccountID, look: Lookups): int {
    if look.credits(pool).Some? then look.credits(pool).value else 0
  }

  const NO_INFO := PoolInfo(UNKNOWN, None, None)

  /** The divisors of a split are not zero. The service does not check this, and panics when they are. */
  predicate Divisible(shallow: bool, f: Fact, look: Lookups) {
    var d := SplitData(shallow, f.pool, look);
    d.Some? ==> Splittable(d.value, f.stake + CreditOf(f.pool.value, look))
  }

  predicate Splittable(d: PoolData, totalStake: int)
    requires d.nominators.Some?
  {
    |d.nominators.value| > 0 ==> d.nominatorsAmount.Some? && d.nominatorsAmount.value != 0 && totalStake != 0
  }

  ghost predicate AllDivisible(fs: seq<Fact>, shallow: bool, look: Lookups) {
    forall i :: 0 <= i < |fs| ==> Divisible(shallow, fs[i], look)
  }

  /** Exactly when the split of a reward panics: there are nominators, and none of them has a deposit or nothing of
      the pool's balance is left. */
  lemma PanicsIff(shallow: bool, f: Fact, look: Lookups)
    ensures var d := SplitData(shallow, f.pool, look);
            !Divisible(shallow, f, look)
            <==> && d.Some? && d.value.nominators.value != []
                 && (|| (forall n :: n in d.value.nominators.value ==> n.amount == 0)
                     || f.stake + CreditOf(f.pool.value, look) == 0)
  {
    var d := SplitData(shallow, f.pool, look);
    if d.Some? {
      NominatorDataAmount(look.cache, f.pool.value, look.accounts(f.pool.value));
      var ns := d.value.nominators.value;
      SumNonNegative(Amounts(ns));
      NonePositive(Amounts(ns));
      assert forall i :: 0 <= i < |ns| ==> Amounts(ns)[i] == ns[i].amount;
    }
  }

  /** A nominator pool whose only nominator's deposit is still pending: splitting its validator's reward panics. */
  lemma PendingDepositPanics(addr: AccountID, credits: AccountID -> Option<int>) returns (look: Lookups)
    ensures look.credits == credits && !Divisible(false, Fact(1, 10, Some(addr)), look)
  {
    var state := NominatorPoolState(0, 3000, 1, 2, [Deposit(3, 0, 5)], {});
    var account := Active(Some(Hash(NOMINATOR_V10_CODE)), Some(ContractData(Some(state), None)));
    look := Lookups(map[], _ => account, credits);
    PanicsIff(false, Fact(1, 10, Some(addr)), look);
    assert SplitData(false, Some(addr), look) == Some(NominatorPoolData(state));
    assert NominatorsOf(state) == [Nominator(3, 0, 5, false)];
  }

  /** One nominator's record out of a `part` for nominators who deposited `amount` in all. */
  function NominatorRecord(n: Nominator, part: int, amount: int, trueStake: int, totalStake: int): NominatorReward
    requires amount != 0 && totalStake != 0
  {
    NominatorReward(n.address, n.amount as real / amount as real,
                    MulDiv(part, n.amount, amount), MulDiv(n.amount, trueStake, totalStake), n.amount)
  }

  function NominatorRecords(d: PoolData, reward: int, trueStake: int, totalStake: int): (r: seq<NominatorReward>)
    requires d.nominators.Some? && Splittable(d, totalStake)
    ensures |r| == |d.nominators.value|
  {
    seq(|d.nominators.value|, i requires 0 <= i < |d.nominators.value| =>
      NominatorRecord(d.nominators.value[i], NominatorsPart(reward, d.rewardShare),
                      d.nominatorsAmount.value, trueStake, totalStake))
  }

  /** Divides a validator's reward into the owner's clamped cut and the nominators' part; the reward itself, which
      the output refers to, keeps its value. */
  method SplitReward(reward: BigInt, share: nat) returns (cut: BigInt, part: BigInt)
    ensures fresh(cut) && fresh(part)
    ensures cut.v == SelfCut(reward.v, share) && part.v == NominatorsPart(reward.v, share)
    ensures cut.v <= reward.v && cut.v + part.v == reward.v && part.v >= 0
  {
    var rewardShare := new BigInt(share);
    var tenThousand := new BigInt(SHARE_DENOMINATOR);
    cut := MulDivInt(reward, rewardShare, tenThousand);
    if cut.v > reward.v {
      cut.Set(reward);
    }
    part := new BigInt(0);
    part.Sub(reward, cut);
  }

  /** What a record says beyond its own stake and reward: nothing in a shallow answer or without a pool, otherwise
      the pool's type and whole balance, and how a nominator pool's reward is split. */
  predicate Enriched(r: RewardRecord, f: Fact, reward: int, shallow: bool, look: Lookups)
    requires Divisible(shallow, f, look)
  {
    if shallow || f.pool.None? then
      r.info == NO_INFO && r.totalStake.None? && r.meta.None? && r.nominators == []
    else
      var balance, a := f.stake + CreditOf(f.pool.value, look), AnswerFor(f.pool.value, look);
      && r.info == Resolve(a)
      && r.totalStake == Some(balance)
      && r.meta == (if a.data.Some? && a.poolType == NOMINATOR_V10 then Some(NominatorPoolMeta(a.data.value)) else None)
      && r.nominators == match SplitData(shallow, f.pool, look)
                         case None => []
                         case Some(d) => NominatorRecords(d, reward, f.stake, balance)
  }

  /** Adds pool data and nominator rewards to a record; `None` is a panic. */
  method Enrich(base: RewardRecord, shallow: bool, look: Lookups) returns (r: Option<RewardRecord>)
    requires base.info == NO_INFO && base.totalStake.None? && base.meta.None? && base.nominators == []
    ensures r.Some? <==> Divisible(shallow, Fact(base.pubkey, base.effectiveStake.v, base.pool), look)
    ensures r.Some? ==>
              && r.value == base.(info := r.value.info, totalStake := r.value.totalStake, meta := r.value.meta,
                                  nominators := r.value.nominators)
              && Enriched(r.value, Fact(base.pubkey, base.effectiveStake.v, base.pool), base.reward.v, shallow, look)
  {
    if shallow || base.pool.None? {
      return Some(base);
    }
    var answer := AnswerFor(base.pool.value, look);
    var out := base.(info := Resolve(answer));
    var credit := new BigInt(if look.credits(base.pool.value).Some? then look.credits(base.pool.value).value else 0);
    var totalStake := new BigInt(0);
    totalStake.Add(base.effectiveStake, credit);
    out := out.(totalStake := Some(totalStake.v));
    if answer.data.None? || answer.poolType != NOMINATOR_V10 {
      return Some(out);
    }
    var d := answer.data.value;
    out := out.(meta := Some(NominatorPoolMeta(d)));
    if d.nominators.None? {
      return Some(out);
    }
    var cut, part := SplitReward(base.reward, d.rewardShare);
    var records := SplitAmongNominators(d, base.reward.v, part.v, base.effectiveStake.v, totalStake.v);
    if records.None? {
      return None;
    }
    return Some(out.(nominators := records.value));
  }

  /** The nominators' records one by one, until a division panics. */
  method SplitAmongNominators(d: PoolData, ghost reward: int, part: int, trueStake: int, totalStake: int)
    returns (records: Option<seq<NominatorReward>>)
    requires d.nominators.Some? && part == NominatorsPart(reward, d.rewardShare)
    ensures records.Some? <==> Splittable(d, totalStake)
    ensures records.Some? ==> records.value == NominatorRecords(d, reward, trueStake, totalStake)
  {
    var out := [];
    for i := 0 to |d.nominators.value|
      invariant i > 0 ==> Splittable(d, totalStake)
      invariant |out| == i
      invariant Splittable(d, totalStake) ==> out == NominatorRecords(d, reward, trueStake, totalStake)[..i]
    {
      if d.nominatorsAmount.None? || d.nominatorsAmount.value == 0 || totalStake == 0 {
        return None;
      }
      out := out + [NominatorRecord(d.nominators.value[i], part, d.nominatorsAmount.value, trueStake, totalStake)];
    }
    assert out == out[..|d.nominators.value|];
    return Some(out);
  }

  ghost function RecordFacts(rs: seq<RewardRecord>): (fs: seq<Fact>)
    reads set r | r in rs :: r.effectiveStake
    ensures |fs| == |rs|
    ensures forall i :: 0 <= i < |rs| ==> fs[i] == Fact(rs[i].pubkey, rs[i].effectiveStake.v, rs[i].pool)
  {
    seq(|rs|, i requires 0 <= i < |rs| reads set r | r in rs :: r.effectiveStake =>
      Fact(rs[i].pubkey, rs[i].effectiveStake.v, rs[i].pool))
  }

  /** A record holds the shares the specification assigns to its stake. */
  ghost predicate Apportioned(r: RewardRecord, pool: int, total: int, shallow: bool, look: Lookups)
    reads r.effectiveStake, r.reward
    requires Divisible(shallow, Fact(r.pubkey, r.effectiveStake.v, r.pool), look)
  {
    && r.weight == Weight(r.effectiveStake.v, total)
    && r.reward.v == ValidatorReward(pool, r.effectiveStake.v, total)
    && Enriched(r, Fact(r.pubkey, r.effectiveStake.v, r.pool), r.reward.v, shallow, look)
  }

  /** Attaches each row's reward to it, in integers of their own. */
  method FillRewards(rows: array<Row<()>>, total: BigInt, pool: BigInt) returns (r: array<Row<BigInt>>)
    ensures fresh(r) && r.Length == rows.Length
    ensures Facts(r[..]) == Facts(rows[..])
    ensures forall i :: 0 <= i < r.Length ==>
              fresh(r[i].extra) && r[i].extra.v == ValidatorReward(pool.v, r[i].trueStake.v, total.v)
  {
    var zero := new BigInt(0);
    r := new Row<BigInt>[rows.Length](_ => Row(0, zero, None, zero));
    for i := 0 to rows.Length
      invariant fresh(r)
      invariant forall j :: 0 <= j < i ==> fresh(r[j].extra) && FactOf(r[j]) == FactOf(rows[j])
      invariant forall j :: 0 <= j < i ==> r[j].extra.v == ValidatorReward(pool.v, r[j].trueStake.v, total.v)
    {
      var row := rows[i];
      var reward := new BigInt(0);
      if total.v > 0 {
        reward := MulDivInt(pool, row.trueStake, total);
      }
      r[i] := Row(row.pubkey, row.trueStake, row.pool, reward);
    }
    assert Facts(r[..]) == Facts(rows[..]);
  }

  /** The rows with their rewards, largest stake first. */
  method RankedRewards(rows: array<Row<()>>, total: BigInt, pool: BigInt) returns (r: array<Row<BigInt>>)
    ensures fresh(r) && r.Length == rows.Length
    ensures multiset(Facts(r[..])) == multiset(old(Facts(rows[..])))
    ensures Descending(Facts(r[..]))
    ensures forall i :: 0 <= i < r.Length ==> r[i].extra.v == ValidatorReward(pool.v, r[i].trueStake.v, total.v)
  {
    r := FillRewards(rows, total, pool);
    assert Facts(rows[..]) == old(Facts(rows[..]));
    SortByStake(r);
  }

  /** Record i carries rank i + 1 and the shares of its own stake. */
  ghost predicate RankedRecords(rs: seq<RewardRecord>, pool: int, total: int, shallow: bool, look: Lookups)
    reads set r | r in rs :: r.effectiveStake
    reads set r | r in rs :: r.reward
  {
    forall i :: 0 <= i < |rs| ==>
      && rs[i].rank == i + 1
      && Divisible(shallow, Fact(rs[i].pubkey, rs[i].effectiveStake.v, rs[i].pool), look)
      && Apportioned(rs[i], pool, total, shallow, look)
  }

  /** Rewards for every row, ranked by stake; `None` is a panic in one of the splits. The rows, the pool and the total
      are only read. */
  method ComputeValidatorRewards(rows: array<Row<()>>, total: BigInt, pool: BigInt, shallow: bool, look: Lookups)
    returns (out: Option<array<RewardRecord>>)
    ensures out.Some? <==> AllDivisible(Facts(rows[..]), shallow, look)
    ensures out.Some? ==>
              && fresh(out.value) && out.value.Length == rows.Length
              && multiset(RecordFacts(out.value[..])) == multiset(Facts(rows[..]))
              && Descending(RecordFacts(out.value[..]))
              && RankedRecords(out.value[..], pool.v, total.v, shallow, look)
  {
    ghost var facts := Facts(rows[..]);
    var rewardRows := RankedRewards(rows, total, pool);
    SameDivisible(Facts(rewardRows[..]), facts, shallow, look);
    SameDivisible(facts, Facts(rewardRows[..]), shallow, look);
    out := FillRecords(rewardRows, total, pool, shallow, look);
    assert Facts(rows[..]) == facts;
  }

  lemma SameDivisible(fs: seq<Fact>, gs: seq<Fact>, shallow: bool, look: Lookups)
    requires multiset(fs) == multiset(gs)
    ensures AllDivisible(fs, shallow, look) ==> AllDivisible(gs, shallow, look)
  {
    SamePermutation(gs, fs);
    if AllDivisible(fs, shallow, look) {
      forall i | 0 <= i < |gs| ensures Divisible(shallow, gs[i], look) {
        assert gs[i] in fs;
      }
    }
  }

  method FillRecords(rewardRows: array<Row<BigInt>>, total: BigInt, pool: BigInt, shallow: bool, look: Lookups)
    returns (out: Option<array<RewardRecord>>)
    requires forall i :: 0 <= i < rewardRows.Length ==>
               rewardRows[i].extra.v == ValidatorReward(pool.v, rewardRows[i].trueStake.v, total.v)
    ensures out.Some? <==> AllDivisible(Facts(rewardRows[..]), shallow, look)
    ensures out.Some? ==>
              && fresh(out.value) && out.value.Length == rewardRows.Length
              && RecordFacts(out.value[..]) == Facts(rewardRows[..])
              && RankedRecords(out.value[..], pool.v, total.v, shallow, look)
  {
    var zero := new BigInt(0);
    var blank := RewardRecord(0, 0, zero, 0.0, zero, None, NO_INFO, None, None, []);
    var records := new RewardRecord[rewardRows.Length](_ => blank);
    ghost var facts := Facts(rewardRows[..]);
    for i := 0 to rewardRows.Length
      invariant fresh(records) && Facts(rewardRows[..]) == facts
      invariant forall j :: 0 <= j < i ==> IsRecordOf(records[j], j + 1, facts[j], pool.v, total.v, shallow, look)
    {
      var record := RecordFor(rewardRows[i], i + 1, total, pool.v, shallow, look);
      assert Facts(rewardRows[..]) == facts;
      if record.None? {
        assert !Divisible(shallow, facts[i], look);
        return None;
      }
      records[i] := record.value;
    }
    RecordsOfFacts(records[..], facts, pool.v, total.v, shallow, look);
    return Some(records);
  }

  lemma RecordsOfFacts(rs: seq<RewardRecord>, fs: seq<Fact>, pool: int, total: int, shallow: bool, look: Lookups)
    requires |rs| == |fs|
    requires forall i :: 0 <= i < |fs| ==> IsRecordOf(rs[i], i + 1, fs[i], pool, total, shallow, look)
    ensures AllDivisible(fs, shallow, look)
    ensures RecordFacts(rs) == fs && RankedRecords(rs, pool, total, shallow, look)
  {
    assert forall i :: 0 <= i < |fs| ==> RecordFacts(rs)[i] == fs[i];
  }

  ghost predicate IsRecordOf(r: RewardRecord, rank: nat, f: Fact, pool: int, total: int, shallow: bool, look: Lookups)
    reads r.effectiveStake, r.reward
  {
    && r.rank == rank && Fact(r.pubkey, r.effectiveStake.v, r.pool) == f
    && Divisible(shallow, f, look) && Apportioned(r, pool, total, shallow, look)
  }

  method RecordFor(row: Row<BigInt>, rank: nat, total: BigInt, ghost pool: int, shallow: bool, look: Lookups)
    returns (r: Option<RewardRecord>)
    requires row.extra.v == ValidatorReward(pool, row.trueStake.v, total.v)
    ensures r.Some? <==> Divisible(shallow, FactOf(row), look)
    ensures r.Some? ==> IsRecordOf(r.value, rank, FactOf(row), pool, total.v, shallow, look)
  {
    var base := RewardRecord(rank, row.pubkey, row.trueStake, Weight(row.trueStake.v, total.v), row.extra, row.pool,
                             NO_INFO, None, None, []);
    r := Enrich(base, shallow, look);
  }

  // ---- what the records pay ----

  /** The terms under which a record's reward is finally paid out. */
  function PayeeOf(f: Fact, shallow: bool, look: Lookups): Payee {
    match SplitData(shallow, f.pool, look)
    case None => Payee(f.stake, None)
    case Some(d) => Payee(f.stake, Some(Split(d.rewardShare, Amounts(d.nominators.value))))
  }

  function Payees(fs: seq<Fact>, shallow: bool, look: Lookups): (r: seq<Payee>) {
    seq(|fs|, i requires 0 <= i < |fs| => PayeeOf(fs[i], shallow, look))
  }

  /** Stakes come out of a frozen election, so they are not negative, and the reward can be split. */
  predicate Payable(f: Fact, shallow: bool, look: Lookups) {
    f.stake >= 0 && Divisible(shallow, f, look)
  }

  function RewardIn(n: NominatorReward): int { n.reward }

  function EffectiveIn(n: NominatorReward): int { n.effectiveStake }

  /** What the entries of one record add up to: the listed nominators and the owner's cut, which no record lists and
      which follows from the pool's data, or the plain reward. */
  ghost function RecordPayout(r: RewardRecord, shallow: bool, look: Lookups): int
    reads r.reward
  {
    match SplitData(shallow, r.pool, look)
    case None => r.reward.v
    case Some(d) => SelfCut(r.reward.v, d.rewardShare) + Sum(Map(r.nominators, RewardIn))
  }

  ghost function Payouts(rs: seq<RewardRecord>, shallow: bool, look: Lookups): seq<int>
    reads set r | r in rs :: r.reward
  {
    seq(|rs|, i requires 0 <= i < |rs| reads set r | r in rs :: r.reward => RecordPayout(rs[i], shallow, look))
  }

  /** Everything the records pay out. */
  ghost function TotalPayout(rs: seq<RewardRecord>, shallow: bool, look: Lookups): int
    reads set r | r in rs :: r.reward
  {
    Sum(Payouts(rs, shallow, look))
  }

  lemma RecordPaysLeaves(r: RewardRecord, pool: int, total: int, shallow: bool, look: Lookups)
    requires Payable(Fact(r.pubkey, r.effectiveStake.v, r.pool), shallow, look)
    requires Apportioned(r, pool, total, shallow, look)
    ensures var p := PayeeOf(Fact(r.pubkey, r.effectiveStake.v, r.pool), shallow, look);
            && (p.split.Some? ==> ValidSplit(p.split.value))
            && RecordPayout(r, shallow, look) == Sum(Leaves(ValidatorReward(pool, p.stake, total), p.split))
  {
    var p := PayeeOf(Fact(r.pubkey, r.effectiveStake.v, r.pool), shallow, look);
    match SplitData(shallow, r.pool, look) {
      case None =>
        assert Leaves(r.reward.v, p.split)[..0] == [];
      case Some(d) =>
        var s := p.split.value;
        SumNonNegative(s.amounts);
        var cut := [SelfCut(r.reward.v, s.share)];
        assert cut[..0] == [];
        SumConcat(cut, NominatorRewards(r.reward.v, s));
        assert Map(r.nominators, RewardIn) == NominatorRewards(r.reward.v, s);
    }
  }

  lemma RecordsPayLeaves(rs: seq<RewardRecord>, pool: int, total: int, shallow: bool, look: Lookups)
    requires forall i :: 0 <= i < |rs| ==>
               && Payable(RecordFacts(rs)[i], shallow, look)
               && Apportioned(rs[i], pool, total, shallow, look)
    ensures ValidPayees(Payees(RecordFacts(rs), shallow, look))
    ensures TotalPayout(rs, shallow, look) == Paid(pool, total, Payees(RecordFacts(rs), shallow, look))
  {
    var payees, payouts := Payees(RecordFacts(rs), shallow, look), Payouts(rs, shallow, look);
    forall i | 0 <= i < |rs|
      ensures payees[i].stake >= 0 && (payees[i].split.Some? ==> ValidSplit(payees[i].split.value))
      ensures payouts[i] == Sum(Leaves(ValidatorReward(pool, payees[i].stake, total), payees[i].split))
    {
      RecordPaysLeaves(rs[i], pool, total, shallow, look);
    }
    PaidIsSum(payouts, pool, total, payees);
  }

  /** Two-level conservation for the records that `ComputeValidatorRewards` returns: the rewards they list, with each
      nominator pool's owner at its cut, add up to no more than the pool, and the rest is dust. */
  lemma RecordsConservePool(rs: seq<RewardRecord>, pool: int, total: int, shallow: bool, look: Lookups)
    requires forall i :: 0 <= i < |rs| ==>
               && Payable(RecordFacts(rs)[i], shallow, look)
               && Apportioned(rs[i], pool, total, shallow, look)
    requires total == Sum(FactStakes(RecordFacts(rs))) > 0
    ensures TotalPayout(rs, shallow, look) <= pool
    ensures pool <= TotalPayout(rs, shallow, look) + (Positives(FactStakes(RecordFacts(rs))) - 1)
                    + SplitDustTotal(pool, total, Payees(RecordFacts(rs), shallow, look))
  {
    RecordsPayLeaves(rs, pool, total, shallow, look);
    assert Stakes(Payees(RecordFacts(rs), shallow, look)) == FactStakes(RecordFacts(rs));
    TwoLevelConservation(pool, Payees(RecordFacts(rs), shallow, look));
  }

  /** When the elector reports no negative credit, no listed nominator's effective stake exceeds its deposit, and
      together they make up the part of all deposits that is at stake, less rounding. */
  lemma RecordEffectiveStakes(r: RewardRecord, pool: int, total: int, shallow: bool, look: Lookups)
    requires Payable(Fact(r.pubkey, r.effectiveStake.v, r.pool), shallow, look)
    requires Apportioned(r, pool, total, shallow, look) && SplitData(shallow, r.pool, look).Some?
    requires CreditOf(r.pool.value, look) >= 0 && r.totalStake.value > 0
    ensures forall i :: 0 <= i < |r.nominators| ==>
              0 <= r.nominators[i].effectiveStake <= r.nominators[i].stake
    ensures var deposits := Amounts(SplitData(shallow, r.pool, look).value.nominators.value);
            var atStake := MulDiv(Sum(deposits), r.effectiveStake.v, r.totalStake.value);
            var listed := Sum(Map(r.nominators, EffectiveIn));
            listed <= atStake <= listed + Max(Positives(deposits) - 1, 0)
  {
    var d := SplitData(shallow, r.pool, look).value;
    var credit := CreditOf(r.pool.value, look);
    assert r.totalStake == Some(r.effectiveStake.v + credit);
    assert r.nominators == NominatorRecords(d, r.reward.v, r.effectiveStake.v, r.effectiveStake.v + credit);
    NominatorsEffectiveStakes(d, r.reward.v, r.effectiveStake.v, credit);
  }

  lemma NominatorsEffectiveStakes(d: PoolData, reward: int, trueStake: int, credit: int)
    requires d.nominators.Some? && Splittable(d, trueStake + credit)
    requires trueStake >= 0 && credit >= 0 && trueStake + credit > 0
    ensures var ns := NominatorRecords(d, reward, trueStake, trueStake + credit);
            var deposits, listed := Amounts(d.nominators.value), Sum(Map(ns, EffectiveIn));
            var atStake := MulDiv(Sum(deposits), trueStake, trueStake + credit);
            && (forall i :: 0 <= i < |ns| ==> 0 <= ns[i].effectiveStake <= ns[i].stake)
            && listed <= atStake <= listed + Max(Positives(deposits) - 1, 0)
  {
    var ns := NominatorRecords(d, reward, trueStake, trueStake + credit);
    var deposits := Amounts(d.nominators.value);
    EffectiveStakesBounded(deposits, trueStake, credit);
    assert Map(ns, EffectiveIn) == EffectiveStakes(deposits, trueStake, trueStake + credit);
    assert forall i :: 0 <= i < |ns| ==> ns[i].effectiveStake == Map(ns, EffectiveIn)[i];
  }

  /** Going down the ranking neither the weight nor, out of a non-negative pool, the reward grows. */
  lemma RewardsFollowRank(rs: seq<RewardRecord>, pool: int, total: int, shallow: bool, look: Lookups, i: nat, j: nat)
    requires forall k :: 0 <= k < |rs| ==>
               && Divisible(shallow, RecordFacts(rs)[k], look)
               && Apportioned(rs[k], pool, total, shallow, look)
    requires Descending(RecordFacts(rs)) && i <= j < |rs|
    ensures rs[i].weight >= rs[j].weight
    ensures pool >= 0 ==> rs[i].reward.v >= rs[j].reward.v
  {
    if i < j && total > 0 {
      assert RecordFacts(rs)[i].stake >= RecordFacts(rs)[j].stake;
      RatioMonotone(rs[j].effectiveStake.v, rs[i].effectiveStake.v, total);
      if pool >= 0 { MulDivMonotone(pool, rs[j].effectiveStake.v, rs[i].effectiveStake.v, total); }
    }
  }

  lemma RatioMonotone(a: int, b: int, c: int)
    requires a <= b && c > 0
    ensures a as real / c as real <= b as real / c as real
  {
  }

  // ---- what one record says, read off the inputs ----

  /** Rank, reward and weight: the floored and the exact part of the pool that the stake is of the total. */
  lemma RecordShare(rs: seq<RewardRecord>, i: nat, pool: int, total: int, shallow: bool, look: Lookups)
    requires RankedRecords(rs, pool, total, shallow, look) && i < |rs|
    ensures rs[i].rank == i + 1
    ensures total > 0 ==>
              && rs[i].reward.v * total <= pool * rs[i].effectiveStake.v < (rs[i].reward.v + 1) * total
              && rs[i].weight * total as real == rs[i].effectiveStake.v as real
    ensures total <= 0 ==> rs[i].reward.v == 0 && rs[i].weight == 0.0
  {
    if total > 0 { RatioTimes(rs[i].effectiveStake.v, total); }
  }

  lemma RatioTimes(a: int, c: int)
    requires c != 0
    ensures a as real / c as real * c as real == a as real
  {
  }

  /** A shallow answer, and a validator without a pool, say nothing of a pool. */
  lemma RecordWithoutPool(rs: seq<RewardRecord>, i: nat, pool: int, total: int, shallow: bool, look: Lookups)
    requires RankedRecords(rs, pool, total, shallow, look) && i < |rs| && (shallow || rs[i].pool.None?)
    ensures rs[i].info.poolType == "" && rs[i].info.validator.None? && rs[i].info.owner.None?
    ensures rs[i].totalStake.None? && rs[i].meta.None? && rs[i].nominators == []
  {
  }

  /** The whole balance of a pool is the stake and what the elector returns, nothing if it cannot be asked. */
  lemma RecordBalance(rs: seq<RewardRecord>, i: nat, pool: int, total: int, look: Lookups, addr: AccountID)
    requires RankedRecords(rs, pool, total, false, look) && i < |rs| && rs[i].pool == Some(addr)
    ensures rs[i].totalStake == match look.credits(addr)
                                case Some(credit) => Some(rs[i].effectiveStake.v + credit)
                                case None => Some(rs[i].effectiveStake.v)
  {
  }

  /** A nominator pool whose data decode: its type, its validator on the masterchain, and its own figures. */
  lemma NominatorPoolRecord(rs: seq<RewardRecord>, i: nat, pool: int, total: int, look: Lookups, addr: AccountID,
                            state: NominatorPoolState, roles: Option<Roles>)
    requires RankedRecords(rs, pool, total, false, look) && i < |rs| && rs[i].pool == Some(addr)
    requires addr !in look.cache && look.accounts(addr) == Active(
               Some(Hash("9a3ec14bc098f6b44064c305222caea2800f17dda85ee6a8198a7095ede10dcf")),
               Some(ContractData(Some(state), roles)))
    ensures rs[i].info.poolType == "nominator-pool-v1.0" && rs[i].info.owner.None?
    ensures rs[i].info.validator
         == if state.validatorAddress == 0 then None else Some(AccountID(-1, state.validatorAddress))
    ensures rs[i].meta.Some? && rs[i].meta.value.validatorStake == Some(state.validatorAmount)
    ensures rs[i].meta.value.nominatorsStake == Some(DepositSum(state.deposits))
    ensures rs[i].meta.value.nominatorsCount == state.nominatorsCount
    ensures rs[i].meta.value.rewardShare * 10000.0 == state.rewardShare as real
  {
    DepositsAddUp(state.deposits, Amounts(NominatorsOf(state)));
    RatioTimes(state.rewardShare, 10000);
  }

  /** Every nominator of such a pool gets what its own deposit is worth: entry j is about deposit j, its reward is the
      floored part of the nominators' share, its effective stake the floored part of its deposit that is at stake, and
      its weight the exact part of all deposits. The owner's cut is the floored share, or the whole reward if less. */
  lemma EachNominatorIsPaid(rs: seq<RewardRecord>, i: nat, pool: int, total: int, look: Lookups, addr: AccountID,
                            state: NominatorPoolState, roles: Option<Roles>)
    returns (cut: int, part: int, balance: int)
    requires RankedRecords(rs, pool, total, false, look) && i < |rs| && rs[i].pool == Some(addr)
    requires addr !in look.cache && look.accounts(addr) == Active(
               Some(Hash("9a3ec14bc098f6b44064c305222caea2800f17dda85ee6a8198a7095ede10dcf")),
               Some(ContractData(Some(state), roles)))
    ensures rs[i].totalStake == Some(balance) && cut <= rs[i].reward.v && part == rs[i].reward.v - cut
    ensures || cut * 10000 <= rs[i].reward.v * state.rewardShare < (cut + 1) * 10000
            || (cut == rs[i].reward.v && cut * 10000 <= rs[i].reward.v * state.rewardShare)
    ensures |rs[i].nominators| == |state.deposits|
    ensures forall j :: 0 <= j < |state.deposits| ==>
              Pays(rs[i].nominators[j], state.deposits[j].address, state.deposits[j].amount,
                   DepositSum(state.deposits), part, rs[i].effectiveStake.v, balance)
  {
    SplitOfState(look, addr, state, roles);
    cut, part := OwnerCut(rs[i].reward.v, state.rewardShare);
    balance := rs[i].totalStake.value;
    StateRecordsPay(state, rs[i].reward.v, part, rs[i].effectiveStake.v, balance);
  }

  /** What it means that a record pays a deposit out of `all` deposits. */
  lemma PaysIff(n: NominatorReward, address: Bits256, deposit: int, all: int, part: int, trueStake: int, balance: int)
    ensures Pays(n, address, deposit, all, part, trueStake, balance)
       <==> && n.address == address && n.stake == deposit
            && n.reward * all <= part * deposit < (n.reward + 1) * all
            && n.weight * all as real == deposit as real
            && (balance > 0 ==>
                  n.effectiveStake * balance <= deposit * trueStake < (n.effectiveStake + 1) * balance)
  {
  }

  lemma OwnerCut(reward: int, share: nat) returns (cut: int, part: int)
    ensures cut <= reward && part == reward - cut && part == NominatorsPart(reward, share)
    ensures || cut * 10000 <= reward * share < (cut + 1) * 10000
            || (cut == reward && cut * 10000 <= reward * share)
  {
    cut, part := SelfCut(reward, share), NominatorsPart(reward, share);
    CutIsFlooredShare(reward, share);
  }

  lemma StateRecordsPay(state: NominatorPoolState, reward: int, part: int, trueStake: int, balance: int)
    requires Splittable(NominatorPoolData(state), balance) && part == NominatorsPart(reward, state.rewardShare)
    ensures var ns := NominatorRecords(NominatorPoolData(state), reward, trueStake, balance);
            && |ns| == |state.deposits|
            && forall j :: 0 <= j < |ns| ==>
                 Pays(ns[j], state.deposits[j].address, state.deposits[j].amount, DepositSum(state.deposits),
                      part, trueStake, balance)
  {
    var d := NominatorPoolData(state);
    var ns := NominatorRecords(d, reward, trueStake, balance);
    DepositsAddUp(state.deposits, Amounts(NominatorsOf(state)));
    SumNonNegative(Amounts(NominatorsOf(state)));
    forall j | 0 <= j < |ns|
      ensures Pays(ns[j], state.deposits[j].address, state.deposits[j].amount, DepositSum(state.deposits),
                   part, trueStake, balance)
    {
      RecordPays(d.nominators.value[j], DepositSum(state.deposits), part, trueStake, balance);
    }
  }

  /** A nominator's record in terms of its deposit out of `all` deposits. */
  predicate Pays(n: NominatorReward, address: Bits256, deposit: int, all: int, part: int, trueStake: int,
                 balance: int) {
    && n.address == address && n.stake == deposit
    && n.reward * all <= part * deposit < (n.reward + 1) * all
    && n.weight * all as real == deposit as real
    && (balance > 0 ==>
          n.effectiveStake * balance <= deposit * trueStake < (n.effectiveStake + 1) * balance)
  }

  lemma RecordPays(n: Nominator, all: int, part: int, trueStake: int, balance: int)
    requires all > 0 && balance != 0
    ensures Pays(NominatorRecord(n, part, all, trueStake, balance), n.address, n.amount, all, part, trueStake, balance)
  {
    RatioTimes(n.amount, all);
  }

  lemma CutIsFlooredShare(reward: int, share: nat)
    ensures var cut := SelfCut(reward, share);
            && cut <= reward
            && (|| cut * 10000 <= reward * share < (cut + 1) * 10000
                || (cut == reward && cut * 10000 <= reward * share))
  {
  }

  lemma SplitOfState(look: Lookups, addr: AccountID, state: NominatorPoolState, roles: Option<Roles>)
    requires addr !in look.cache && look.accounts(addr) == Active(
               Some(Hash("9a3ec14bc098f6b44064c305222caea2800f17dda85ee6a8198a7095ede10dcf")),
               Some(ContractData(Some(state), roles)))
    ensures SplitData(false, Some(addr), look) == Some(NominatorPoolData(state))
  {
  }

  /** A single-nominator pool: owner and validator are the decoded ones, and its reward is not split. */
  lemma SingleNominatorRecord(rs: seq<RewardRecord>, i: nat, pool: int, total: int, look: Lookups, addr: AccountID,
                              hash: string, roles: Roles, state: Option<NominatorPoolState>)
    requires RankedRecords(rs, pool, total, false, look) && i < |rs| && rs[i].pool == Some(addr)
    requires addr !in look.cache
    requires look.accounts(addr) == Active(Some(Hash(hash)), Some(ContractData(state, Some(roles))))
    requires || hash == "a42ae69eac76ffe0e452d3d4f13d387a14e46c01a5aadba5fc1d893e6c71f5ba"
             || hash == "cc0d39589eb2c0cfe0fde28456657a3bdd3d953955ae3f98f25664ab3c904fbd"
    ensures rs[i].info.poolType == if hash == "a42ae69eac76ffe0e452d3d4f13d387a14e46c01a5aadba5fc1d893e6c71f5ba"
                                   then "single-nominator-pool-v1.0" else "single-nominator-pool-v1.1"
    ensures rs[i].info.validator == roles.validator.account && rs[i].info.owner == roles.owner.account
    ensures rs[i].meta.None? && rs[i].nominators == []
  {
  }
}
