/** Staking pools: detecting a pool's type from its contract code, decoding its data, and the process-wide cache
    of detected types. */
module Pools {
  import opened Options
  import opened Numbers

  type Bits256 = x: int | 0 <= x < 0x1_0000_0000_0000_0000_0000_0000_0000_0000_0000_0000_0000_0000_0000_0000_0000_0000

  datatype AccountID = AccountID(workchain: int, address: Bits256)

  /** A message address; `tag` names the decoded variant, and `account` is the account it stands for, if any. */
  datatype TaggedAddress = MsgAddress(tag: string, account: Option<AccountID>)

  /** Only a value that was never decoded has no tag, and it stands for no account. */
  type MsgAddress = a: TaggedAddress | a.tag == "" ==> a.account.None? witness MsgAddress("", None)

  const NO_ADDRESS: MsgAddress := MsgAddress("", None)

  const NOMINATOR_V10 := "nominator-pool-v1.0"
  const SINGLE_NOMINATOR_V10 := "single-nominator-pool-v1.0"
  const SINGLE_NOMINATOR_V11 := "single-nominator-pool-v1.1"
  const OTHER := "other"
  const UNKNOWN := ""

  const NOMINATOR_V10_CODE := "9a3ec14bc098f6b44064c305222caea2800f17dda85ee6a8198a7095ede10dcf"
  const SINGLE_NOMINATOR_V10_CODE := "a42ae69eac76ffe0e452d3d4f13d387a14e46c01a5aadba5fc1d893e6c71f5ba"
  const SINGLE_NOMINATOR_V11_CODE := "cc0d39589eb2c0cfe0fde28456657a3bdd3d953955ae3f98f25664ab3c904fbd"

  function TypeByCodeHash(hash: string): string {
    if hash == NOMINATOR_V10_CODE then NOMINATOR_V10
    else if hash == SINGLE_NOMINATOR_V10_CODE then SINGLE_NOMINATOR_V10
    else if hash == SINGLE_NOMINATOR_V11_CODE then SINGLE_NOMINATOR_V11
    else UNKNOWN
  }

  datatype Nominator = Nominator(address: Bits256, amount: uint64, pendingDeposit: uint64, withdrawRequested: bool)

  datatype PoolData = PoolData(
    validatorAmount: Option<int>, nominatorsAmount: Option<int>, rewardShare: nat, nominatorsCount: nat,
    validatorAddress: Bits256, owner: MsgAddress, validatorWallet: MsgAddress,
    nominators: Option<seq<Nominator>>)

  /** Pool data that carries addresses only. */
  function AddressesOnly(validator: Bits256, owner: MsgAddress, wallet: MsgAddress): PoolData {
    PoolData(None, None, 0, 0, validator, owner, wallet, None)
  }

  /** Contract data of a nominator pool: `deposits` lists the nominators dictionary. */
  datatype NominatorPoolState = NominatorPoolState(
    validatorAmount: uint64, rewardShare: nat, nominatorsCount: nat, validatorAddress: Bits256,
    deposits: seq<Deposit>, withdrawals: set<Bits256>)

  datatype Deposit = Deposit(address: Bits256, amount: uint64, pending: uint64)

  datatype Roles = Roles(owner: MsgAddress, validator: MsgAddress)

  /** A contract's data cell, read with either layout; `None` when it does not decode. */
  datatype ContractData = ContractData(asNominatorPool: Option<NominatorPoolState>, asRoles: Option<Roles>)

  datatype Code = Unhashable | Hash(hex: string)

  /** What one account-state request reveals. */
  datatype Account =
    | Unreachable
    | NotAccount
    | Inactive
    | Active(code: Option<Code>, data: Option<ContractData>)

  datatype CachedPool = CachedPool(poolType: string, validator: Bits256, owner: MsgAddress, wallet: MsgAddress)

  type PoolCache = map<AccountID, CachedPool>

  datatype Answer = Answer(poolType: string, data: Option<PoolData>)

  function FromCache(c: CachedPool): Answer {
    if c.validator != 0 || c.owner.tag != "" || c.wallet.tag != "" then
      Answer(c.poolType, Some(AddressesOnly(c.validator, c.owner, c.wallet)))
    else
      Answer(c.poolType, None)
  }

  function NominatorsOf(s: NominatorPoolState): (r: seq<Nominator>)
    ensures |r| == |s.deposits|
  {
    seq(|s.deposits|, i requires 0 <= i < |s.deposits| =>
      var d := s.deposits[i];
      Nominator(d.address, d.amount, d.pending, d.address in s.withdrawals))
  }

  function Amounts(ns: seq<Nominator>): (r: seq<int>) {
    seq(|ns|, i requires 0 <= i < |ns| => ns[i].amount)
  }

  function NominatorPoolData(s: NominatorPoolState): PoolData {
    PoolData(Some(s.validatorAmount), Some(Sum(Amounts(NominatorsOf(s)))), s.rewardShare, s.nominatorsCount,
             s.validatorAddress, NO_ADDRESS, NO_ADDRESS, Some(NominatorsOf(s)))
  }

  /** The answer of an uncached detection, and what it puts into the cache. */
  function Detect(a: Account): (Answer, Option<CachedPool>) {
    var other := (Answer(OTHER, None), Some(CachedPool(OTHER, 0, NO_ADDRESS, NO_ADDRESS)));
    if !a.Active? then (Answer(UNKNOWN, None), None)
    else if a.code.None? || a.data.None? then other
    else if a.code.value.Unhashable? then (Answer(UNKNOWN, None), None)
    else
      var t := TypeByCodeHash(a.code.value.hex);
      if t == NOMINATOR_V10 then
        match a.data.value.asNominatorPool
        case None => (Answer(t, None), None)
        case Some(s) => (Answer(t, Some(NominatorPoolData(s))), None)
      else if t == SINGLE_NOMINATOR_V10 || t == SINGLE_NOMINATOR_V11 then
        match a.data.value.asRoles
        case None => (Answer(t, None), None)
        case Some(r) =>
          (Answer(t, Some(AddressesOnly(0, r.owner, r.validator))), Some(CachedPool(t, 0, r.owner, r.validator)))
      else other
  }

  function Lookup(cache: PoolCache, addr: AccountID, a: Account): Answer {
    if addr in cache then FromCache(cache[addr]) else Detect(a).0
  }

  function Remember(cache: PoolCache, addr: AccountID, a: Account): PoolCache {
    if addr in cache || Detect(a).1.None? then cache else cache[addr := Detect(a).1.value]
  }

  /** What is reported about a pool: its type and the accounts behind it. */
  datatype PoolInfo = PoolInfo(poolType: string, validator: Option<AccountID>, owner: Option<AccountID>)

  /** The validator is the wallet's account, or else the masterchain account a nominator pool names. */
  function Resolve(a: Answer): PoolInfo {
    match a.data
    case None => PoolInfo(a.poolType, None, None)
    case Some(d) =>
      var validator :=
        if d.validatorWallet.account.Some? then d.validatorWallet.account
        else if d.validatorAddress != 0 then Some(AccountID(-1, d.validatorAddress))
        else None;
      PoolInfo(a.poolType, validator, d.owner.account)
  }

  function DepositSum(ds: seq<Deposit>): int {
    if |ds| == 0 then 0 else DepositSum(ds[..|ds| - 1]) + ds[|ds| - 1].amount
  }

  lemma {:induction false} DepositsAddUp(ds: seq<Deposit>, amounts: seq<int>)
    requires |ds| == |amounts| && forall i :: 0 <= i < |ds| ==> amounts[i] == ds[i].amount
    ensures Sum(amounts) == DepositSum(ds)
  {
    if |ds| > 0 { DepositsAddUp(ds[..|ds| - 1], amounts[..|amounts| - 1]); }
  }

  class PoolTypeCache {
    var entries: PoolCache

    constructor ()
      ensures entries == map[]
    {
      entries := map[];
    }

    /** Answers from the cache when it can; otherwise detects the type from the account state. The first two clauses
        tie it to the functions that runs are made of, the others say what comes out for each state of an account. */
    method FetchPoolData(addr: AccountID, account: Account) returns (r: Answer)
      modifies this
      ensures r == Lookup(old(entries), addr, account)
      ensures entries == Remember(old(entries), addr, account)
      ensures addr in old(entries) ==>
                var c := old(entries)[addr];
                && entries == old(entries) && r.poolType == c.poolType
                && (r.data.Some? <==> c.validator != 0 || c.owner.tag != "" || c.wallet.tag != "")
                && (r.data.Some? ==> && r.data.value.validatorAddress == c.validator && r.data.value.owner == c.owner
                                     && r.data.value.validatorWallet == c.wallet && r.data.value.nominators.None?)
      ensures addr !in old(entries) &&
              (!account.Active? || (account.code.Some? && account.data.Some? && account.code.value.Unhashable?)) ==>
                r == Answer("", None) && entries == old(entries)
      ensures addr !in old(entries) && account.Active? && account.data.Some? && account.code == Some(
                Hash("9a3ec14bc098f6b44064c305222caea2800f17dda85ee6a8198a7095ede10dcf")) ==>
                && r.poolType == "nominator-pool-v1.0" && entries == old(entries)
                && match account.data.value.asNominatorPool
                   case None => r.data.None?
                   case Some(s) =>
                     && r.data.Some? && r.data.value.rewardShare == s.rewardShare
                     && r.data.value.nominatorsCount == s.nominatorsCount
                     && r.data.value.validatorAmount == Some(s.validatorAmount)
                     && r.data.value.nominatorsAmount == Some(DepositSum(s.deposits))
                     && r.data.value.validatorAddress == s.validatorAddress
                     && r.data.value.owner.tag == "" && r.data.value.validatorWallet.tag == ""
                     && r.data.value.nominators.Some? && |r.data.value.nominators.value| == |s.deposits|
                     && forall i :: 0 <= i < |s.deposits| ==>
                          var n, x := r.data.value.nominators.value[i], s.deposits[i];
                          && n.address == x.address && n.amount == x.amount && n.pendingDeposit == x.pending
                          && (n.withdrawRequested <==> x.address in s.withdrawals)
      ensures addr !in old(entries) && account.Active? && account.data.Some? && account.code == Some(
                Hash("a42ae69eac76ffe0e452d3d4f13d387a14e46c01a5aadba5fc1d893e6c71f5ba")) ==>
                && r.poolType == "single-nominator-pool-v1.0"
                && match account.data.value.asRoles
                   case None => r.data.None? && entries == old(entries)
                   case Some(x) =>
                     && r.data.Some? && r.data.value.owner == x.owner && r.data.value.validatorWallet == x.validator
                     && r.data.value.validatorAddress == 0 && r.data.value.nominators.None?
      ensures addr !in old(entries) && account.Active? && account.data.Some? && account.code == Some(
                Hash("cc0d39589eb2c0cfe0fde28456657a3bdd3d953955ae3f98f25664ab3c904fbd")) ==>
                && r.poolType == "single-nominator-pool-v1.1"
                && match account.data.value.asRoles
                   case None => r.data.None? && entries == old(entries)
                   case Some(x) =>
                     && r.data.Some? && r.data.value.owner == x.owner && r.data.value.validatorWallet == x.validator
                     && r.data.value.validatorAddress == 0 && r.data.value.nominators.None?
      ensures addr !in old(entries) && account.Active? &&
              (account.code.None? || account.data.None? || (account.code.value.Hash? &&
                account.code.value.hex !in [
                  "9a3ec14bc098f6b44064c305222caea2800f17dda85ee6a8198a7095ede10dcf",
                  "a42ae69eac76ffe0e452d3d4f13d387a14e46c01a5aadba5fc1d893e6c71f5ba",
                  "cc0d39589eb2c0cfe0fde28456657a3bdd3d953955ae3f98f25664ab3c904fbd"])) ==>
                r == Answer("other", None) && addr in entries
      ensures addr !in old(entries) && addr in entries ==>
                var c := entries[addr];
                && entries == old(entries)[addr := c] && c.poolType == r.poolType
                && (match r.data
                    case None => c.validator == 0 && c.owner.tag == "" && c.wallet.tag == ""
                    case Some(d) =>
                      c.validator == d.validatorAddress && c.owner == d.owner && c.wallet == d.validatorWallet)
    {
      if addr in entries {
        var info := entries[addr];
        if info.validator != 0 || info.owner.tag != "" || info.wallet.tag != "" {
          return Answer(info.poolType, Some(AddressesOnly(info.validator, info.owner, info.wallet)));
        }
        return Answer(info.poolType, None);
      }
      if !account.Active? {
        return Answer(UNKNOWN, None);
      }
      if account.code.None? || account.data.None? {
        entries := entries[addr := CachedPool(OTHER, 0, NO_ADDRESS, NO_ADDRESS)];
        return Answer(OTHER, None);
      }
      if account.code.value.Unhashable? {
        return Answer(UNKNOWN, None);
      }
      var poolType := TypeByCodeHash(account.code.value.hex);
      if poolType == NOMINATOR_V10 {
        if account.data.value.asNominatorPool.None? {
          return Answer(poolType, None);
        }
        var data := DecodeNominatorPool(account.data.value.asNominatorPool.value);
        return Answer(poolType, Some(data));
      } else if poolType == SINGLE_NOMINATOR_V10 || poolType == SINGLE_NOMINATOR_V11 {
        if account.data.value.asRoles.None? {
          return Answer(poolType, None);
        }
        var roles := account.data.value.asRoles.value;
        entries := entries[addr := CachedPool(poolType, 0, roles.owner, roles.validator)];
        return Answer(poolType, Some(AddressesOnly(0, roles.owner, roles.validator)));
      } else {
        entries := entries[addr := CachedPool(OTHER, 0, NO_ADDRESS, NO_ADDRESS)];
        return Answer(OTHER, None);
      }
    }
  }

  /** Lists the nominators and accumulates their deposits: the nominators' amount is exactly their sum, so a split
      over it divides by what it distributes to. */
  method DecodeNominatorPool(s: NominatorPoolState) returns (r: PoolData)
    ensures r == NominatorPoolData(s)
    ensures r.nominators.Some? && r.nominatorsAmount == Some(Sum(Amounts(r.nominators.value)))
    ensures r.validatorAmount == Some(s.validatorAmount) && r.nominatorsAmount == Some(DepositSum(s.deposits))
    ensures r.rewardShare == s.rewardShare && r.nominatorsCount == s.nominatorsCount
    ensures r.validatorAddress == s.validatorAddress && |r.nominators.value| == |s.deposits|
    ensures forall i :: 0 <= i < |s.deposits| ==>
              && r.nominators.value[i].address == s.deposits[i].address
              && r.nominators.value[i].amount == s.deposits[i].amount
              && r.nominators.value[i].pendingDeposit == s.deposits[i].pending
              && (r.nominators.value[i].withdrawRequested <==> s.deposits[i].address in s.withdrawals)
  {
    var noms: seq<Nominator> := [];
    for i := 0 to |s.deposits|
      invariant noms == NominatorsOf(s)[..i]
    {
      var d := s.deposits[i];
      noms := noms + [Nominator(d.address, d.amount, d.pending, d.address in s.withdrawals)];
    }
    assert noms == NominatorsOf(s);
    DepositsAddUp(s.deposits, Amounts(noms));
    var amount := 0;
    for i := 0 to |noms|
      invariant amount == Sum(Amounts(noms)[..i])
    {
      amount := amount + noms[i].amount;
      assert Amounts(noms)[..i + 1][..i] == Amounts(noms)[..i];
    }
    assert Amounts(noms)[..|noms|] == Amounts(noms);
    return PoolData(Some(s.validatorAmount), Some(amount), s.rewardShare, s.nominatorsCount,
                    s.validatorAddress, NO_ADDRESS, NO_ADDRESS, Some(noms));
  }

  // ---- whole runs: any sequence of requests, one after the other ----

  datatype Request = Request(addr: AccountID, account: Account)

  function CacheAfter(reqs: seq<Request>): PoolCache {
    if |reqs| == 0 then map[] else
      var last := reqs[|reqs| - 1];
      Remember(CacheAfter(reqs[..|reqs| - 1]), last.addr, last.account)
  }

  function AnswerTo(reqs: seq<Request>, i: nat): Answer
    requires i < |reqs|
  {
    Lookup(CacheAfter(reqs[..i]), reqs[i].addr, reqs[i].account)
  }

  /** In no run is a nominator pool or a failed detection stored, and an entry of unrecognised type holds no address. */
  lemma {:induction false} OnlyStableTypesStored(reqs: seq<Request>, addr: AccountID)
    requires addr in CacheAfter(reqs)
    ensures var c := CacheAfter(reqs)[addr];
            && c.poolType in [OTHER, SINGLE_NOMINATOR_V10, SINGLE_NOMINATOR_V11]
            && (c.poolType == OTHER ==> c == CachedPool(OTHER, 0, NO_ADDRESS, NO_ADDRESS))
  {
    var last := reqs[|reqs| - 1];
    if addr in CacheAfter(reqs[..|reqs| - 1]) {
      OnlyStableTypesStored(reqs[..|reqs| - 1], addr);
    }
  }

  /** Once stored, an entry is there unchanged after every longer run. */
  lemma {:induction false} EntriesNeverChange(reqs: seq<Request>, n: nat, addr: AccountID)
    requires n <= |reqs| && addr in CacheAfter(reqs[..n])
    ensures addr in CacheAfter(reqs) && CacheAfter(reqs)[addr] == CacheAfter(reqs[..n])[addr]
  {
    if n == |reqs| {
      assert reqs[..n] == reqs;
    } else {
      assert reqs[..|reqs| - 1][..n] == reqs[..n];
      EntriesNeverChange(reqs[..|reqs| - 1], n, addr);
    }
  }

  /** Call `i` of a run is the one that stores its address. */
  predicate Stores(reqs: seq<Request>, i: nat)
    requires i < |reqs|
  {
    reqs[i].addr !in CacheAfter(reqs[..i]) && reqs[i].addr in CacheAfter(reqs[..i + 1])
  }

  /** Whatever the account has become, a later call for the address answers as the storing call did, except
      when that call decoded two addresses that both lack a tag. */
  lemma HitAgreesWithStoringCall(reqs: seq<Request>, i: nat, j: nat)
    requires i < j < |reqs| && reqs[i].addr == reqs[j].addr && Stores(reqs, i)
    ensures AnswerTo(reqs, j) == AnswerTo(reqs, i)
       <==> AnswerTo(reqs, i).data.None?
            || AnswerTo(reqs, i).data.value.owner.tag != "" || AnswerTo(reqs, i).data.value.validatorWallet.tag != ""
  {
    assert reqs[..i + 1][..i] == reqs[..i];
    assert reqs[..j][..i + 1] == reqs[..i + 1];
    EntriesNeverChange(reqs[..j], i + 1, reqs[i].addr);
  }

  /** The exception is not one that a reader of the answers could notice: the reported type and accounts agree. */
  lemma HitResolvesAlike(reqs: seq<Request>, i: nat, j: nat)
    requires i < j < |reqs| && reqs[i].addr == reqs[j].addr && Stores(reqs, i)
    ensures Resolve(AnswerTo(reqs, j)) == Resolve(AnswerTo(reqs, i))
    ensures AnswerTo(reqs, j).poolType == AnswerTo(reqs, i).poolType != NOMINATOR_V10
  {
    assert reqs[..i + 1][..i] == reqs[..i];
    assert reqs[..j][..i + 1] == reqs[..i + 1];
    EntriesNeverChange(reqs[..j], i + 1, reqs[i].addr);
    OnlyStableTypesStored(reqs[..j], reqs[i].addr);
  }

  /** Asked again about the same account, the cache answers as before, up to what no reader notices; a nominator
      pool's answer is the same altogether. */
  lemma SecondLookupAlike(cache: PoolCache, addr: AccountID, account: Account)
    ensures var first := Lookup(cache, addr, account);
            var second := Lookup(Remember(cache, addr, account), addr, account);
            && Resolve(first) == Resolve(second)
            && (first.poolType == NOMINATOR_V10 ==> first == second)
  {
  }

  /** The exception itself: roles that were never decoded give data at first and none from the cache. */
  lemma TaglessHitDiffers() returns (reqs: seq<Request>)
    ensures |reqs| == 2 && reqs[0].addr == reqs[1].addr && Stores(reqs, 0)
    ensures AnswerTo(reqs, 0).data.Some? && AnswerTo(reqs, 1).data.None?
  {
    var data := ContractData(None, Some(Roles(NO_ADDRESS, NO_ADDRESS)));
    var r := Request(AccountID(-1, 7), Active(Some(Hash(SINGLE_NOMINATOR_V10_CODE)), Some(data)));
    reqs := [r, r];
    assert reqs[..0] == [] && reqs[..1] == [r] && [r][..0] == [];
    assert CacheAfter([r]) == Remember(map[], r.addr, r.account);
  }

  // ---- data by which a reward is split ----

  /** A nominator pool's data, when it lists its nominators. */
  function NominatorData(a: Answer): Option<PoolData> {
    if a.data.Some? && a.poolType == NOMINATOR_V10 && a.data.value.nominators.Some? then a.data else None
  }

  /** Whatever the cache holds, the amount by which nominators' shares are divided is the sum of their deposits. */
  lemma NominatorDataAmount(cache: PoolCache, addr: AccountID, account: Account)
    ensures var d := NominatorData(Lookup(cache, addr, account));
            d.Some? ==> d.value.nominatorsAmount == Some(Sum(Amounts(d.value.nominators.value)))
  {
  }
}
