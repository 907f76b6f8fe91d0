/** The two answers built from all the parts: the rewards of a finished round, and of a single block. */
module Endpoints {
  import opened Options
  import opened Numbers
  import opened RewardMath
  import opened Rewards
  import opened Rounds
  import opened PerBlock
  import opened Pools
  import opened Elections
  import opened Sorting
  import PastElections

  datatype Problem =
    | NoBlock
    | Unresolved(failure: Failure)
    | NoConfig
    | NoValidators
    | NoStake
    | NoBonuses
    | NoPrevious(failure: Failure)
    | Panic

  /** A round's rewards; `totalStake` is the elector's own figure, which it may lack. */
  datatype RoundReport = RoundReport(round: Round, totalBonuses: int, totalStake: Option<int>,
                                     validators: seq<RewardRecord>)

  /** What the service reads at a block besides the round's times: the validators configured there (`None` when they
      cannot be read), the past elections listed there and the pool map merged from them (none when they cannot). */
  datatype Reads = Reads(validators: uint32 -> Option<seq<Key>>, elections: uint32 -> seq<RawPastElection>,
                         pools: map<uint32, PoolMap>)

  function PoolsAt(chain: Reads, b: uint32): PoolMap {
    if b in chain.pools then chain.pools[b] else map[]
  }

  /** The records distribute `pool` over the validators, ranked by stake. */
  ghost predicate Distributes(rs: seq<RewardRecord>, fs: seq<Fact>, pool: int, shallow: bool, look: Lookups)
    reads set r | r in rs :: r.effectiveStake
    reads set r | r in rs :: r.reward
  {
    && multiset(RecordFacts(rs)) == multiset(fs)
    && Descending(RecordFacts(rs))
    && RankedRecords(rs, pool, Sum(FactStakes(fs)), shallow, look)
  }

  /** The validators configured at a block, as the pool map there describes them. */
  ghost function FactsAt(b: uint32, chain: Reads): seq<Fact>
    reads PoolInts(PoolsAt(chain, b))
  {
    match chain.validators(b)
    case None => []
    case Some(vs) => ExpectedAll(vs, PoolsAt(chain, b))
  }

  /** Rows and total, described by facts that do not depend on the heap. */
  method Rows(validators: seq<Key>, pools: PoolMap, ghost fs: seq<Fact>)
    returns (rows: array<Row<()>>, total: BigInt)
    requires fs == ExpectedAll(validators, pools)
    ensures fs == ExpectedAll(validators, pools)
    ensures rows.Length == |validators| && multiset(Facts(rows[..])) == multiset(fs) && total.v == Sum(FactStakes(fs))
  {
    rows, total := BuildValidatorRows(validators, pools);
    assert ExpectedAll(validators, pools) == fs;
    SameTotalStake(Facts(rows[..]), fs);
  }

  /** Distributes the pool over rows that say what `fs` says; `None` is a panic. */
  method RewardRows(rows: array<Row<()>>, total: BigInt, pool: int, shallow: bool, look: Lookups, ghost fs: seq<Fact>)
    returns (rs: Option<seq<RewardRecord>>)
    requires multiset(Facts(rows[..])) == multiset(fs) && total.v == Sum(FactStakes(fs))
    ensures rs.Some? <==> AllDivisible(fs, shallow, look)
    ensures rs.Some? ==> Distributes(rs.value, fs, pool, shallow, look)
  {
    SameDivisible(Facts(rows[..]), fs, shallow, look);
    SameDivisible(fs, Facts(rows[..]), shallow, look);
    var bonuses := new BigInt(pool);
    var out := ComputeValidatorRewards(rows, total, bonuses, shallow, look);
    if out.None? { return None; }
    return Some(out.value[..]);
  }

  // ---- the round endpoint ----

  /** Why there is no answer for a resolved round whose validators are `fs`, if there is none. */
  ghost function Missing(x: Round, chain: Reads, fs: seq<Fact>, shallow: bool, look: Lookups): Option<Problem> {
    var vs := chain.validators(x.endBlock);
    if vs.None? then Some(NoConfig)
    else if vs.value == [] then Some(NoValidators)
    else if Sum(FactStakes(fs)) == 0 then Some(NoStake)
    else if BonusesAt(chain.elections(x.nextBlock), x.electionId).None? then Some(NoBonuses)
    else if !AllDivisible(fs, shallow, look) then Some(Panic)
    else None
  }

  /** Exactly what the round endpoint answers once it has resolved round `x`, whose validators are `fs`. */
  ghost predicate RoundAnswer(x: Round, chain: Reads, fs: seq<Fact>, shallow: bool, look: Lookups,
                              r: Result<RoundReport, Problem>)
    reads set v | r.Ok? && v in r.value.validators :: v.effectiveStake
    reads set v | r.Ok? && v in r.value.validators :: v.reward
  {
    match r
    case Err(problem) => Missing(x, chain, fs, shallow, look) == Some(problem)
    case Ok(report) =>
      && Missing(x, chain, fs, shallow, look).None?
      && report.round == x && Some(report.totalBonuses) == BonusesAt(chain.elections(x.nextBlock), x.electionId)
      && report.totalStake == Find(chain.elections(x.nextBlock), x.electionId).value.totalStake
      && Distributes(report.validators, fs, report.totalBonuses, shallow, look)
  }

  /** The validators of the resolved round's last block and the bonuses listed at the block after it. */
  method RewardRound(x: Round, chain: Reads, shallow: bool, look: Lookups, ghost fs: seq<Fact>)
    returns (r: Result<RoundReport, Problem>)
    requires fs == FactsAt(x.endBlock, chain)
    ensures RoundAnswer(x, chain, fs, shallow, look, r)
  {
    var vs := chain.validators(x.endBlock);
    if vs.None? { return Err(NoConfig); }
    var rows, total := Rows(vs.value, PoolsAt(chain, x.endBlock), fs);
    if rows.Length == 0 { return Err(NoValidators); }
    if total.v == 0 { return Err(NoStake); }
    var el := FindElection(chain.elections(x.nextBlock), x.electionId);
    if el.None? || el.value.bonuses.None? { return Err(NoBonuses); }
    var records := RewardRows(rows, total, el.value.bonuses.value, shallow, look, fs);
    if records.None? { return Err(Panic); }
    return Ok(RoundReport(x, el.value.bonuses.value, el.value.totalStake, records.value));
  }

  /** Resolves the round and distributes its bonuses. */
  method FetchRoundRewards(conf: Config, q: Query, chain: Reads, shallow: bool, look: Lookups)
    returns (r: Result<RoundReport, Problem>)
    ensures exists resolved :: RoundResult(conf, q, resolved) &&
              match resolved
              case Err(f) => r == Err(Unresolved(f))
              case Ok(x) => RoundAnswer(x, chain, FactsAt(x.endBlock, chain), shallow, look, r)
  {
    var resolved := ResolveRound(conf, q);
    if resolved.Err? { return Err(Unresolved(resolved.error)); }
    ghost var fs := FactsAt(resolved.value.endBlock, chain);
    r := RewardRound(resolved.value, chain, shallow, look, fs);
    assert FactsAt(resolved.value.endBlock, chain) == fs;
  }

  // ---- the block endpoint ----

  /** The block that was looked up, the current time, where time lookups land, and the reads of the backward walk. */
  datatype BlockQuery = BlockQuery(block: uint32, now: int, landing: int -> Option<uint32>, read: nat -> bool)

  datatype BlockReport = BlockReport(
    electionId: int, prevBonuses: int, currBonuses: int, reward: int, startBlock: uint32, endBlock: uint32,
    prevId: Option<int>, nextId: Option<int>, totalStake: int, validators: seq<RewardRecord>)

  function Landing(q: BlockQuery, time: int): uint32 {
    if q.landing(time).Some? then q.landing(time).value else 0
  }

  function RoundStart(conf: Config, q: BlockQuery): uint32 {
    if conf(q.block).since > 0 then Landing(q, conf(q.block).since) else 0
  }

  predicate Finished(c: RoundConf, now: int) {
    0 < c.until < now
  }

  /** Elections listed at the block before; none for the first blocks of the chain. */
  function ElectionsBefore(b: uint32, chain: Reads): seq<RawPastElection> {
    if b <= 1 then [] else chain.elections(b - 1)
  }

  /** The previous election is walked to only when the round's start is known. */
  ghost predicate PrevIdResult(conf: Config, q: BlockQuery, r: Result<Option<int>, Failure>) {
    var start := RoundStart(conf, q);
    if start == 0 then r == Ok(None) else
      match r
      case Ok(id) => id.Some? && PrevResult(conf, start, q.read, Ok(id.value))
      case Err(f) => PrevResult(conf, start, q.read, Err(f))
  }

  /** Exactly what the block endpoint answers; `fs` are the block's validators. */
  ghost predicate BlockAnswer(conf: Config, q: BlockQuery, chain: Reads, fs: seq<Fact>, shallow: bool, look: Lookups,
                              r: Result<BlockReport, Problem>)
    reads set v | r.Ok? && v in r.value.validators :: v.effectiveStake
    reads set v | r.Ok? && v in r.value.validators :: v.reward
  {
    var c, vs := conf(q.block), chain.validators(q.block);
    if vs.None? then r == Err(NoConfig)
    else
      match r
      case Err(NoPrevious(f)) => PrevIdResult(conf, q, Err(f))
      case Err(problem) =>
        problem == Panic && !AllDivisible(fs, shallow, look) && exists id :: PrevIdResult(conf, q, Ok(id))
      case Ok(report) =>
        && AllDivisible(fs, shallow, look) && PrevIdResult(conf, q, Ok(report.prevId))
        && BlockReported(c, q, chain, fs, shallow, look, report)
  }

  ghost predicate BlockReported(c: RoundConf, q: BlockQuery, chain: Reads, fs: seq<Fact>,
                                shallow: bool, look: Lookups, r: BlockReport)
    reads set v | v in r.validators :: v.effectiveStake
    reads set v | v in r.validators :: v.reward
  {
    var cur := BonusesAt(chain.elections(q.block), c.since);
    var prev := BonusesAt(ElectionsBefore(q.block, chain), c.since);
    && r.electionId == c.since
    && r.nextId == (if Finished(c, q.now) then Some(c.until) else None)
    && r.startBlock == (if c.since > 0 then Landing(q, c.since) else 0)
    && r.endBlock == (if Finished(c, q.now) then Landing(q, c.until) else 0)
    && (if cur.Some? && prev.Some? then r.currBonuses == cur.value && r.prevBonuses == prev.value
        else r.currBonuses == r.prevBonuses == 0)
    && r.reward == r.currBonuses - r.prevBonuses && r.totalStake == Sum(FactStakes(fs))
    && Distributes(r.validators, fs, r.reward, shallow, look)
  }

  method FindPrevious(conf: Config, q: BlockQuery) returns (r: Result<Option<int>, Failure>)
    ensures PrevIdResult(conf, q, r)
  {
    if RoundStart(conf, q) == 0 { return Ok(None); }
    var walked := FetchPrevElectionId(conf, RoundStart(conf, q), q.read);
    if walked.Err? { return Err(walked.error); }
    return Ok(Some(walked.value));
  }

  /** The reward of one block and its distribution over the validators configured there; `q` is `None` when the block
      asked for cannot be looked up. */
  method FetchBlockRewards(conf: Config, q: Option<BlockQuery>, chain: Reads, shallow: bool, look: Lookups)
    returns (r: Result<BlockReport, Problem>)
    ensures match q
            case None => r == Err(NoBlock)
            case Some(q) => BlockAnswer(conf, q, chain, FactsAt(q.block, chain), shallow, look, r)
  {
    if q.None? { return Err(NoBlock); }
    ghost var fs := FactsAt(q.value.block, chain);
    r := RewardBlock(conf, q.value, chain, shallow, look, fs);
    assert FactsAt(q.value.block, chain) == fs;
  }

  method RewardBlock(conf: Config, q: BlockQuery, chain: Reads, shallow: bool, look: Lookups, ghost fs: seq<Fact>)
    returns (r: Result<BlockReport, Problem>)
    requires fs == FactsAt(q.block, chain)
    ensures BlockAnswer(conf, q, chain, fs, shallow, look, r)
  {
    var c, vs := conf(q.block), chain.validators(q.block);
    if vs.None? { return Err(NoConfig); }
    var reward, before, now := BlockReward(chain.elections(q.block), ElectionsBefore(q.block, chain), c.since);
    var endBlock := if Finished(c, q.now) then Landing(q, c.until) else 0;
    var nextId := if Finished(c, q.now) then Some(c.until) else None;
    var prev := FindPrevious(conf, q);
    if prev.Err? { return Err(NoPrevious(prev.error)); }
    var rows, total := Rows(vs.value, PoolsAt(chain, q.block), fs);
    var records := RewardRows(rows, total, reward, shallow, look, fs);
    if records.None? { return Err(Panic); }
    return Ok(BlockReport(c.since, before, now, reward, RoundStart(conf, q), endBlock, prev.value, nextId,
                          total.v, records.value));
  }

  /** A block of round `i` is reported with the previous election exactly when the time lookup for the round's start
      lands inside the round, at most 999 blocks after its first block. */
  lemma BlockNamesPreviousIff(ch: Chain, conf: Config, i: nat, q: BlockQuery, chain: Reads, fs: seq<Fact>,
                              shallow: bool, look: Lookups, report: BlockReport, start: uint32)
    requires Tiles(ch, conf) && 0 < i < |ch.ids| && ch.ids[i] > 0
    requires ch.starts[i] <= q.block < ch.starts[i + 1] && q.landing(ch.ids[i]) == Some(start)
    requires 0 < start && ch.starts[i - 1] <= start < ch.starts[i + 1] && forall k :: q.read(k)
    requires BlockAnswer(conf, q, chain, fs, shallow, look, Ok(report))
    ensures report.electionId == ch.ids[i] && report.startBlock == start
    ensures report.prevId == Some(ch.ids[i - 1]) <==> ch.starts[i] <= start <= ch.starts[i] + 999
  {
    InRound(ch, conf, i, q.block);
    assert RoundStart(conf, q) == start;
    PrevElectionIff(ch, conf, i, start, q.read, Ok(report.prevId.value));
  }

  /** A block of round `i` is reported with the next election and the block its time lookup lands on exactly when round
      `i` is over, and with neither otherwise. */
  lemma BlockNamesNextIff(ch: Chain, conf: Config, i: nat, q: BlockQuery, chain: Reads, fs: seq<Fact>, shallow: bool,
                          look: Lookups, report: BlockReport)
    requires Tiles(ch, conf) && i + 1 < |ch.ids| && ch.ids[i + 1] > 0 && ch.starts[i] <= q.block < ch.starts[i + 1]
    requires BlockAnswer(conf, q, chain, fs, shallow, look, Ok(report))
    ensures report.nextId == if ch.ids[i + 1] < q.now then Some(ch.ids[i + 1]) else None
    ensures report.endBlock == if ch.ids[i + 1] < q.now && q.landing(ch.ids[i + 1]).Some?
                               then q.landing(ch.ids[i + 1]).value else 0
  {
    assert conf(q.block).until == ch.ids[i + 1];
  }

  /** When a block has no answer: its validators cannot be read, the walk to the previous election fails from a known
      start, or some split panics. */
  lemma BlockRefused(conf: Config, q: BlockQuery, chain: Reads, fs: seq<Fact>, shallow: bool, look: Lookups,
                     r: Result<BlockReport, Problem>)
    requires BlockAnswer(conf, q, chain, fs, shallow, look, r)
    ensures r == Err(NoConfig) <==> chain.validators(q.block).None?
    ensures r.Err? ==> r.error.NoConfig? || r.error.NoPrevious? || r.error.Panic?
    ensures r.Err? && r.error.NoPrevious? ==>
              var since := conf(q.block).since;
              && since > 0 && q.landing(since).Some? && q.landing(since).value > 0
              && PrevResult(conf, q.landing(since).value, q.read, Err(r.error.failure))
    ensures r == Err(Panic) ==> exists f :: f in fs && !Divisible(shallow, f, look)
    ensures r.Ok? ==> forall f :: f in fs ==> Divisible(shallow, f, look)
  {
    AllDivisibleIff(fs, shallow, look);
  }

  /** Without a time lookup for the round's start neither the start nor the previous election is reported. */
  lemma BlockWithoutStart(conf: Config, q: BlockQuery, chain: Reads, fs: seq<Fact>, shallow: bool, look: Lookups,
                          report: BlockReport)
    requires BlockAnswer(conf, q, chain, fs, shallow, look, Ok(report))
    requires conf(q.block).since <= 0 || q.landing(conf(q.block).since).None?
    ensures report.electionId == conf(q.block).since && report.startBlock == 0 && report.prevId.None?
  {
  }

  /** The block's reward is the growth of its election's bonuses since the block before. */
  lemma BlockRewardIsGrowth(conf: Config, q: BlockQuery, chain: Reads, fs: seq<Fact>, shallow: bool, look: Lookups,
                            report: BlockReport, c: RawPastElection, p: RawPastElection)
    requires BlockAnswer(conf, q, chain, fs, shallow, look, Ok(report)) && q.block > 1
    requires c in chain.elections(q.block) && p in chain.elections(q.block - 1)
    requires c.electAt == p.electAt == conf(q.block).since && c.bonuses.Some? && p.bonuses.Some?
    requires forall e :: e in chain.elections(q.block) && e.electAt == c.electAt ==> e == c
    requires forall e :: e in chain.elections(q.block - 1) && e.electAt == p.electAt ==> e == p
    ensures report.currBonuses == c.bonuses.value && report.prevBonuses == p.bonuses.value
    ensures report.reward == c.bonuses.value - p.bonuses.value
  {
  }

  /** There is no reward for the first blocks, nor when no listing at one of the two blocks has bonuses. */
  lemma BlockRewardIsMissing(conf: Config, q: BlockQuery, chain: Reads, fs: seq<Fact>, shallow: bool, look: Lookups,
                             report: BlockReport)
    requires BlockAnswer(conf, q, chain, fs, shallow, look, Ok(report))
    requires || q.block <= 1
             || (forall e :: e in chain.elections(q.block) && e.electAt == conf(q.block).since ==> e.bonuses.None?)
             || (forall e :: e in chain.elections(q.block - 1) && e.electAt == conf(q.block).since ==> e.bonuses.None?)
    ensures report.currBonuses == 0 && report.prevBonuses == 0 && report.reward == 0
  {
  }

  /** The reported total is what the listed validators have together. */
  lemma BlockTotalIsListed(conf: Config, q: BlockQuery, chain: Reads, fs: seq<Fact>, shallow: bool, look: Lookups,
                           report: BlockReport)
    requires BlockAnswer(conf, q, chain, fs, shallow, look, Ok(report))
    ensures report.totalStake == Sum(FactStakes(RecordFacts(report.validators)))
  {
    SameTotalStake(RecordFacts(report.validators), fs);
  }

  // ---- what the answers add up to ----

  /** The records pay out the pool, less fewer units than there are validators with stake and each split's dust. */
  ghost predicate PaidUpToDust(rs: seq<RewardRecord>, pool: int, shallow: bool, look: Lookups)
    reads set r | r in rs :: r.effectiveStake
    reads set r | r in rs :: r.reward
  {
    var fs := RecordFacts(rs);
    var dust := Positives(FactStakes(fs)) - 1 + SplitDustTotal(pool, Sum(FactStakes(fs)), Payees(fs, shallow, look));
    TotalPayout(rs, shallow, look) <= pool <= TotalPayout(rs, shallow, look) + dust
  }

  /** Every nominator pool among the payees has a nominator. */
  predicate NominatorsEverywhere(ps: seq<Payee>) {
    forall i :: 0 <= i < |ps| && ps[i].split.Some? ==> |ps[i].split.value.amounts| > 0
  }

  /** Then the dust is fewer units than validators with stake, plus fewer per pool than it has nominators. */
  lemma DustIsFewUnits(rs: seq<RewardRecord>, pool: int, shallow: bool, look: Lookups)
    requires PaidUpToDust(rs, pool, shallow, look)
    requires NominatorsEverywhere(Payees(RecordFacts(rs), shallow, look))
    ensures var fs := RecordFacts(rs);
            pool - TotalPayout(rs, shallow, look)
            <= Positives(FactStakes(fs)) - 1 + OtherNominators(Payees(fs, shallow, look))
  {
    var fs := RecordFacts(rs);
    DustBelowNominators(pool, Sum(FactStakes(fs)), Payees(fs, shallow, look));
  }

  lemma DistributedUpToDust(rs: seq<RewardRecord>, fs: seq<Fact>, pool: int, shallow: bool, look: Lookups)
    requires Distributes(rs, fs, pool, shallow, look) && Sum(FactStakes(fs)) != 0
    requires forall i :: 0 <= i < |fs| ==> fs[i].stake >= 0
    ensures PaidUpToDust(rs, pool, shallow, look)
  {
    var gs := RecordFacts(rs);
    SamePermutation(gs, fs);
    SameTotalStake(gs, fs);
    forall i | 0 <= i < |gs| ensures Payable(gs[i], shallow, look) {
      assert gs[i] in fs;
    }
    SumNonNegative(FactStakes(gs));
    RecordsConservePool(rs, pool, Sum(FactStakes(fs)), shallow, look);
  }

  /** The pool map says what the table says. */
  ghost predicate Mirrors(pools: PoolMap, table: Table)
    reads PoolInts(pools)
  {
    && pools.Keys == table.Keys
    && forall k :: k in pools ==> pools[k].addr == table[k].addr && pools[k].trueStake.v == table[k].trueStake
  }

  /** What a validator has in its latest election among `es`; nothing if it is in none. */
  ghost predicate LatestStake(es: seq<RawPastElection>, f: Fact) {
    if exists e :: e in es && PastElections.Holds(e, f.pubkey)
    then exists e :: && e in es && PastElections.IsLatest(es, e, f.pubkey)
                     && f.stake == e.members.value[f.pubkey].trueStake
                     && f.pool == Some(e.members.value[f.pubkey].addr)
    else f.stake == 0 && f.pool.None?
  }

  /** The pool map of a block is the merge of the elections listed there. */
  ghost predicate PoolsMerged(chain: Reads, b: uint32)
    reads PoolInts(PoolsAt(chain, b))
  {
    exists table :: PastElections.LatestWins(chain.elections(b), table) && Mirrors(PoolsAt(chain, b), table)
  }

  lemma MergedStakes(chain: Reads, b: uint32, f: Fact)
    requires PoolsMerged(chain, b) && f in FactsAt(b, chain)
    ensures f.stake >= 0 && LatestStake(chain.elections(b), f)
  {
    var table :| PastElections.LatestWins(chain.elections(b), table) && Mirrors(PoolsAt(chain, b), table);
    var i :| 0 <= i < |FactsAt(b, chain)| && FactsAt(b, chain)[i] == f;
    assert f == Expected(chain.validators(b).value[i], PoolsAt(chain, b));
  }

  /** Every record shows what its validator has in its latest election listed at block `b`. */
  ghost predicate ShowsLatestStakes(rs: seq<RewardRecord>, es: seq<RawPastElection>)
    reads set r | r in rs :: r.effectiveStake
  {
    forall i :: 0 <= i < |rs| ==> LatestStake(es, RecordFacts(rs)[i])
  }

  lemma DistributionFollowsElections(rs: seq<RewardRecord>, chain: Reads, b: uint32, pool: int, shallow: bool,
                                     look: Lookups)
    requires PoolsMerged(chain, b)
    requires Distributes(rs, FactsAt(b, chain), pool, shallow, look) && Sum(FactStakes(FactsAt(b, chain))) != 0
    ensures ShowsLatestStakes(rs, chain.elections(b)) && PaidUpToDust(rs, pool, shallow, look)
  {
    var fs := FactsAt(b, chain);
    SamePermutation(RecordFacts(rs), fs);
    forall i | 0 <= i < |rs| ensures LatestStake(chain.elections(b), RecordFacts(rs)[i]) {
      assert RecordFacts(rs)[i] in fs;
      MergedStakes(chain, b, RecordFacts(rs)[i]);
    }
    forall i | 0 <= i < |fs| ensures fs[i].stake >= 0 {
      MergedStakes(chain, b, fs[i]);
    }
    DistributedUpToDust(rs, fs, pool, shallow, look);
  }

  function Pubkeys(rs: seq<RewardRecord>): (ks: seq<Key>)
    ensures |ks| == |rs| && forall i :: 0 <= i < |rs| ==> ks[i] == rs[i].pubkey
  {
    seq(|rs|, i requires 0 <= i < |rs| => rs[i].pubkey)
  }

  function PubkeyIn(f: Fact): Key { f.pubkey }

  /** The records are about the validators configured at the block, each as often as it is configured. */
  lemma RecordsOfValidators(rs: seq<RewardRecord>, b: uint32, chain: Reads, pool: int, shallow: bool, look: Lookups)
    requires chain.validators(b).Some? && Distributes(rs, FactsAt(b, chain), pool, shallow, look)
    ensures multiset(Pubkeys(rs)) == multiset(chain.validators(b).value)
  {
    MapPermutation(RecordFacts(rs), FactsAt(b, chain), PubkeyIn);
    assert Map(RecordFacts(rs), PubkeyIn) == Pubkeys(rs);
    assert Map(FactsAt(b, chain), PubkeyIn) == chain.validators(b).value;
  }

  /** A resolved round is reported exactly when its validators can be read and there are some, not all of them without
      stake, the first election listed under its id has bonuses, and no split panics. */
  lemma RoundReportedIff(x: Round, chain: Reads, shallow: bool, look: Lookups, r: Result<RoundReport, Problem>)
    requires RoundAnswer(x, chain, FactsAt(x.endBlock, chain), shallow, look, r)
    requires PoolsMerged(chain, x.endBlock)
    ensures r.Ok?
       <==> && chain.validators(x.endBlock).Some? && chain.validators(x.endBlock).value != []
            && (exists f :: f in FactsAt(x.endBlock, chain) && f.stake > 0)
            && (exists j :: 0 <= j < |chain.elections(x.nextBlock)|
                            && chain.elections(x.nextBlock)[j].electAt == x.electionId
                            && chain.elections(x.nextBlock)[j].bonuses.Some?
                            && forall k :: 0 <= k < j ==> chain.elections(x.nextBlock)[k].electAt != x.electionId)
            && (forall f :: f in FactsAt(x.endBlock, chain) ==> Divisible(shallow, f, look))
    ensures r.Err? ==> r.error in {NoConfig, NoValidators, NoStake, NoBonuses, Panic}
    ensures r == Err(NoConfig) <==> chain.validators(x.endBlock).None?
    ensures r == Err(NoValidators) <==> chain.validators(x.endBlock) == Some([])
  {
    var fs := FactsAt(x.endBlock, chain);
    forall i | 0 <= i < |fs| ensures fs[i].stake >= 0 { MergedStakes(chain, x.endBlock, fs[i]); }
    SomeStakeIff(fs);
    FirstBonusesIff(chain.elections(x.nextBlock), x.electionId);
    AllDivisibleIff(fs, shallow, look);
  }

  lemma AllDivisibleIff(fs: seq<Fact>, shallow: bool, look: Lookups)
    ensures AllDivisible(fs, shallow, look) <==> forall f :: f in fs ==> Divisible(shallow, f, look)
  {
    if !AllDivisible(fs, shallow, look) {
      var i :| 0 <= i < |fs| && !Divisible(shallow, fs[i], look);
      assert fs[i] in fs;
    }
  }

  lemma SomeStakeIff(fs: seq<Fact>)
    requires forall i :: 0 <= i < |fs| ==> fs[i].stake >= 0
    ensures Sum(FactStakes(fs)) >= 0
    ensures Sum(FactStakes(fs)) > 0 <==> exists f :: f in fs && f.stake > 0
  {
    SumNonNegative(FactStakes(fs));
    NonePositive(FactStakes(fs));
    if f :| f in fs && f.stake > 0 {
      var i :| 0 <= i < |fs| && fs[i] == f;
      assert FactStakes(fs)[i] > 0;
    }
    if Sum(FactStakes(fs)) > 0 {
      var i :| 0 <= i < |fs| && FactStakes(fs)[i] > 0;
      assert fs[i] in fs;
    }
  }

  lemma {:induction false} FirstBonusesIff(es: seq<RawPastElection>, id: int)
    ensures BonusesAt(es, id).Some?
       <==> exists j :: 0 <= j < |es| && es[j].electAt == id && es[j].bonuses.Some?
                        && forall k :: 0 <= k < j ==> es[k].electAt != id
  {
    if |es| > 0 && es[0].electAt != id {
      FirstBonusesIff(es[1..], id);
      if j :| 0 <= j < |es[1..]| && es[1..][j].electAt == id && es[1..][j].bonuses.Some?
              && forall k :: 0 <= k < j ==> es[1..][k].electAt != id {
        assert es[j + 1] == es[1..][j];
        forall k | 0 <= k < j + 1 ensures es[k].electAt != id {
          if k > 0 { assert es[k] == es[1..][k - 1]; }
        }
      }
      if j :| 0 <= j < |es| && es[j].electAt == id && es[j].bonuses.Some?
              && forall k :: 0 <= k < j ==> es[k].electAt != id {
        assert es[1..][j - 1] == es[j];
        assert forall k :: 0 <= k < j - 1 ==> es[1..][k] == es[k + 1];
      }
    }
  }

  /** The whole round endpoint, for a query from inside round `i` of the chain: it answers with round `i`; the records
      show the stakes of the latest elections listed at its last block; and what they pay out is the bonuses listed for
      it at the next block, never more, and less only by dust. */
  lemma RoundPaysItsBonuses(ch: Chain, conf: Config, i: nat, q: Query, chain: Reads, shallow: bool, look: Lookups,
                            resolved: Result<Round, Failure>, report: RoundReport)
    requires Tiles(ch, conf) && 0 < i && i + 1 < |ch.ids| && AskedInside(ch, i, q)
    requires RoundResult(conf, q, resolved) && resolved.Ok? && PoolsMerged(chain, resolved.value.endBlock)
    requires RoundAnswer(resolved.value, chain, FactsAt(resolved.value.endBlock, chain), shallow, look, Ok(report))
    ensures var x := report.round;
            && x.electionId == ch.ids[i] && x.startBlock == ch.starts[i] && x.endBlock == ch.starts[i + 1] - 1
            && x.nextBlock == ch.starts[i + 1]
            && (exists e :: e in chain.elections(x.nextBlock) && e.electAt == ch.ids[i]
                            && e.bonuses == Some(report.totalBonuses) && e.totalStake == report.totalStake)
            && ShowsLatestStakes(report.validators, chain.elections(x.endBlock))
            && chain.validators(x.endBlock).Some?
            && multiset(Pubkeys(report.validators)) == multiset(chain.validators(x.endBlock).value)
    ensures PaidUpToDust(report.validators, report.totalBonuses, shallow, look)
  {
    RoundReconstructed(ch, conf, i, q, resolved);
    RecordsOfValidators(report.validators, resolved.value.endBlock, chain, report.totalBonuses, shallow, look);
    var e := Find(chain.elections(report.round.nextBlock), report.round.electionId).value;
    assert e.bonuses == Some(report.totalBonuses) && e.totalStake == report.totalStake;
    DistributionFollowsElections(report.validators, chain, resolved.value.endBlock, report.totalBonuses, shallow, look);
  }

  /** The block endpoint pays out the block's reward in the same way, whether it is positive or not. */
  lemma BlockPaysItsReward(conf: Config, q: BlockQuery, chain: Reads, shallow: bool, look: Lookups, report: BlockReport)
    requires PoolsMerged(chain, q.block) && Sum(FactStakes(FactsAt(q.block, chain))) != 0
    requires BlockAnswer(conf, q, chain, FactsAt(q.block, chain), shallow, look, Ok(report))
    ensures ShowsLatestStakes(report.validators, chain.elections(q.block))
    ensures chain.validators(q.block).Some?
            && multiset(Pubkeys(report.validators)) == multiset(chain.validators(q.block).value)
    ensures PaidUpToDust(report.validators, report.reward, shallow, look)
  {
    RecordsOfValidators(report.validators, q.block, chain, report.reward, shallow, look);
    DistributionFollowsElections(report.validators, chain, q.block, report.reward, shallow, look);
  }

  /** A call's table out of the past-elections cache is the merge of what the call fetched, so a pool map that mirrors
      it is what both theorems above ask for. That an election's id determines its members, in all that was fetched, is
      one case in which ids tell merges. */
  lemma CachedPoolsMerged(states: seq<PastElections.State>, t: nat, chain: Reads, b: uint32, table: Table)
    requires PastElections.Run(states)
    requires PastElections.IdsTellMerges(PastElections.FetchedLists(states[|states| - 1]))
    requires t in states[|states| - 1].calls
    requires states[|states| - 1].calls[t] == PastElections.Returned(chain.elections(b), table)
    requires Mirrors(PoolsAt(chain, b), table)
    ensures PoolsMerged(chain, b)
  {
    PastElections.HitsAreOwnMerges(states, PastElections.FetchedLists(states[|states| - 1]));
  }

  // ---- the answers for consecutive blocks ----

  /** The past elections listed at block `b` and the `k` blocks after it. */
  function ListedFrom(chain: Reads, b: uint32, k: nat): seq<seq<RawPastElection>>
    requires b + k < TWO_32
  {
    seq(k + 1, j requires 0 <= j <= k => chain.elections(b + j))
  }

  /** An answer about `block` in the election `id` that lists the validator `f` in record `i`. */
  ghost predicate AnswerFor(r: BlockReport, i: nat, block: uint32, conf: Config, q: BlockQuery, chain: Reads, id: int,
                            fs: seq<Fact>, f: Fact, shallow: bool, look: Lookups)
    reads set v | v in r.validators :: v.effectiveStake
    reads set v | v in r.validators :: v.reward
  {
    && q.block == block && conf(block).since == id
    && BlockAnswer(conf, q, chain, fs, shallow, look, Ok(r))
    && i < |r.validators| && RecordFacts(r.validators)[i] == f
  }

  /** Answer `j` is about the `j`-th block after `b` and lists the validator in record `at[j]`. */
  ghost predicate AnswersFor(rs: seq<BlockReport>, at: seq<nat>, b: uint32, conf: Config, qs: seq<BlockQuery>,
                             chain: Reads, id: int, fs: seq<Fact>, f: Fact, shallow: bool, looks: seq<Lookups>)
    reads set r, v | r in rs && v in r.validators :: v.effectiveStake
    reads set r, v | r in rs && v in r.validators :: v.reward
  {
    && |rs| == |at| == |qs| == |looks| && b + |rs| < TWO_32
    && forall j :: 0 <= j < |rs| ==>
         AnswerFor(rs[j], at[j], b + 1 + j, conf, qs[j], chain, id, fs, f, shallow, looks[j])
  }

  /** What the answers list for the validator. */
  ghost function ListedRewards(rs: seq<BlockReport>, at: seq<nat>): (listed: seq<int>)
    requires |rs| == |at| && forall j :: 0 <= j < |rs| ==> at[j] < |rs[j].validators|
    reads set r, v | r in rs && v in r.validators :: v.reward
    ensures |listed| == |rs| && forall j :: 0 <= j < |rs| ==> listed[j] == rs[j].validators[at[j]].reward.v
  {
    seq(|rs|, j requires 0 <= j < |rs| && at[j] < |rs[j].validators|
                reads set r, v | r in rs && v in r.validators :: v.reward => rs[j].validators[at[j]].reward.v)
  }

  lemma ListedReward(r: BlockReport, i: nat, block: uint32, conf: Config, q: BlockQuery, chain: Reads, id: int,
                     fs: seq<Fact>, f: Fact, shallow: bool, look: Lookups)
    requires AnswerFor(r, i, block, conf, q, chain, id, fs, f, shallow, look) && block > 1
    ensures r.validators[i].reward.v
         == ValidatorReward(RewardOf(chain.elections(block), chain.elections(block - 1), id), f.stake,
                            Sum(FactStakes(fs)))
  {
  }

  lemma SharesOfListed(chain: Reads, b: uint32, k: nat, id: int, stake: int, total: int, j: nat)
    requires b + k < TWO_32 && j < k
    ensures BlockShares(ListedFrom(chain, b, k), id, stake, total)[j]
         == ValidatorReward(RewardOf(chain.elections(b + 1 + j), chain.elections(b + j), id), stake, total)
  {
    var blocks := ListedFrom(chain, b, k);
    assert blocks[j + 1] == chain.elections(b + (j + 1)) && blocks[j] == chain.elections(b + j);
  }

  lemma ListedAreShares(rs: seq<BlockReport>, at: seq<nat>, b: uint32, conf: Config, qs: seq<BlockQuery>, chain: Reads,
                        id: int, fs: seq<Fact>, f: Fact, shallow: bool, looks: seq<Lookups>)
    requires AnswersFor(rs, at, b, conf, qs, chain, id, fs, f, shallow, looks) && b > 0
    ensures forall j :: 0 <= j < |rs| ==> at[j] < |rs[j].validators|
    ensures ListedRewards(rs, at) == BlockShares(ListedFrom(chain, b, |rs|), id, f.stake, Sum(FactStakes(fs)))
  {
    var shares := BlockShares(ListedFrom(chain, b, |rs|), id, f.stake, Sum(FactStakes(fs)));
    assert forall j :: 0 <= j < |rs| ==>
             AnswerFor(rs[j], at[j], b + 1 + j, conf, qs[j], chain, id, fs, f, shallow, looks[j]);
    forall j | 0 <= j < |rs| ensures at[j] < |rs[j].validators| && rs[j].validators[at[j]].reward.v == shares[j] {
      ListedReward(rs[j], at[j], b + 1 + j, conf, qs[j], chain, id, fs, f, shallow, looks[j]);
      SharesOfListed(chain, b, |rs|, id, f.stake, Sum(FactStakes(fs)), j);
    }
  }

  /** The block endpoint's answers for `k` consecutive blocks with unchanged stakes agree with the round endpoint up to
      dust: what they list for a validator adds up to at most its share of the growth of the bonuses, and to more than
      that less `k`. */
  lemma BlockAnswersAgreeWithRound(rs: seq<BlockReport>, at: seq<nat>, b: uint32, conf: Config, qs: seq<BlockQuery>,
                                   chain: Reads, id: int, fs: seq<Fact>, f: Fact, shallow: bool, looks: seq<Lookups>)
    requires AnswersFor(rs, at, b, conf, qs, chain, id, fs, f, shallow, looks)
    requires |rs| > 0 && b > 0 && Sum(FactStakes(fs)) > 0 && Recorded(ListedFrom(chain, b, |rs|), id)
    ensures forall j :: 0 <= j < |rs| ==> at[j] < |rs[j].validators|
    ensures var listed, growth := Sum(ListedRewards(rs, at)), Growth(ListedFrom(chain, b, |rs|), id);
            listed <= ValidatorReward(growth, f.stake, Sum(FactStakes(fs))) < listed + |rs|
  {
    ListedAreShares(rs, at, b, conf, qs, chain, id, fs, f, shallow, looks);
    PerBlockAgreesWithRound(ListedFrom(chain, b, |rs|), id, f.stake, Sum(FactStakes(fs)));
  }
}
