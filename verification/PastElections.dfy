/** The merged table of frozen stakes and its process-wide cache: one merge, one call, and any number of calls
    interleaved between their two critical sections. */
module PastElections {
  import opened Options
  import opened Sorting
  import opened Pools
  import opened Elections

  predicate Holds(e: RawPastElection, k: Key) {
    e.members.Some? && k in e.members.value
  }

  /** `m` maps every key of any election, and no other, to its entry in a latest election that has it. */
  ghost predicate LatestWins(es: seq<RawPastElection>, m: Table) {
    && (forall k :: k in m <==> exists e :: e in es && Holds(e, k))
    && (forall k :: k in m ==> exists e :: e in es && IsLatest(es, e, k) && m[k] == e.members.value[k])
  }

  ghost predicate IsLatest(es: seq<RawPastElection>, e: RawPastElection, k: Key) {
    && Holds(e, k)
    && forall e' :: e' in es && Holds(e', k) ==> e'.electAt <= e.electAt
  }

  function ElectAt(e: RawPastElection): int { e.electAt }

  function Identity(x: int): int { x }

  /** The election ids in ascending order, the key the cache goes by. */
  function SortedIds(es: seq<RawPastElection>): seq<int> {
    Sort(Map(es, ElectAt), Identity)
  }

  /** Merges the elections from the earliest to the latest, later entries replacing earlier ones. */
  method MergeElections(parsed: seq<RawPastElection>) returns (merged: Table)
    ensures LatestWins(parsed, merged)
  {
    var all: seq<RawPastElection> := [];
    for i := 0 to |parsed|
      invariant forall e :: e in all <==> e in parsed[..i] && e.members.Some?
    {
      if parsed[i].members.Some? {
        all := all + [parsed[i]];
      }
    }
    merged := MergeInOrder(SortedElections(all));
    KeptAreTwinned(SortedElections(all), parsed);
    SameElectionsSameMerge(SortedElections(all), parsed, merged);
  }

  function SortedElections(es: seq<RawPastElection>): (r: seq<RawPastElection>)
    ensures Ascending(r, ElectAt)
    ensures forall e :: e in r <==> e in es
  {
    var r := Sort(es, ElectAt);
    assert forall e :: e in r <==> e in multiset(r);
    assert forall e :: e in es <==> e in multiset(es);
    r
  }

  lemma KeptAreTwinned(kept: seq<RawPastElection>, parsed: seq<RawPastElection>)
    requires forall e :: e in kept <==> e in parsed && e.members.Some?
    ensures TwinnedIn(kept, parsed) && TwinnedIn(parsed, kept)
  {
    forall e | e in kept ensures HasTwin(parsed, e) {
      assert Twins(e, e);
    }
    forall e | e in parsed && e.members.Some? ensures HasTwin(kept, e) {
      assert Twins(e, e);
    }
  }

  method MergeInOrder(all: seq<RawPastElection>) returns (merged: Table)
    requires Ascending(all, ElectAt) && forall e :: e in all ==> e.members.Some?
    ensures LatestWins(all, merged)
  {
    merged := map[];
    for i := 0 to |all|
      invariant LatestWins(all[..i], merged)
    {
      MergeStep(all, i, merged);
      merged := merged + all[i].members.value;
    }
    assert all[..|all|] == all;
  }

  lemma MergeStep(all: seq<RawPastElection>, i: nat, m: Table)
    requires i < |all| && Ascending(all, ElectAt) && all[i].members.Some?
    requires LatestWins(all[..i], m)
    ensures LatestWins(all[..i + 1], m + all[i].members.value)
  {
    var now, m' := all[..i + 1], m + all[i].members.value;
    assert now == all[..i] + [all[i]];
    LastIsLatest(all, i);
    forall k ensures k in m' <==> exists e :: e in now && Holds(e, k) {
      MergedKey(all[..i], all[i], m, k);
    }
    forall k | k in m' ensures exists e :: e in now && IsLatest(now, e, k) && m'[k] == e.members.value[k] {
      MergedEntry(all[..i], all[i], m, k);
    }
  }

  lemma LastIsLatest(all: seq<RawPastElection>, i: nat)
    requires i < |all| && Ascending(all, ElectAt)
    ensures forall e :: e in all[..i + 1] ==> e.electAt <= all[i].electAt
  {
    forall e | e in all[..i + 1] ensures e.electAt <= all[i].electAt {
      var j :| 0 <= j < i + 1 && all[j] == e;
      assert ElectAt(all[j]) <= ElectAt(all[i]);
    }
  }

  lemma MergedKey(es: seq<RawPastElection>, last: RawPastElection, m: Table, k: Key)
    requires last.members.Some? && LatestWins(es, m)
    ensures k in m + last.members.value <==> exists e :: e in es + [last] && Holds(e, k)
  {
    if k in m {
      var e :| e in es && Holds(e, k);
      assert e in es + [last];
    }
    if Holds(last, k) { assert last in es + [last]; }
  }

  lemma MergedEntry(es: seq<RawPastElection>, last: RawPastElection, m: Table, k: Key)
    requires last.members.Some? && LatestWins(es, m) && k in m + last.members.value
    requires forall e :: e in es + [last] ==> e.electAt <= last.electAt
    ensures exists e :: e in es + [last] && IsLatest(es + [last], e, k)
                        && (m + last.members.value)[k] == e.members.value[k]
  {
    if Holds(last, k) {
      assert IsLatest(es + [last], last, k);
    } else {
      var e :| e in es && IsLatest(es, e, k) && m[k] == e.members.value[k];
      assert IsLatest(es + [last], e, k);
    }
  }

  /** The same election with the same members; its stake and bonuses may have changed. */
  predicate Twins(e: RawPastElection, f: RawPastElection) {
    e.electAt == f.electAt && e.members == f.members
  }

  /** Every election of `es` that parses has a twin in `fs`. */
  ghost predicate TwinnedIn(es: seq<RawPastElection>, fs: seq<RawPastElection>) {
    forall e {:trigger HasTwin(fs, e)} :: e in es && e.members.Some? ==> HasTwin(fs, e)
  }

  ghost predicate HasTwin(fs: seq<RawPastElection>, e: RawPastElection) {
    exists f :: f in fs && Twins(e, f)
  }

  /** Order, repetition, elections that do not parse, stakes and bonuses make no difference to a merge. */
  lemma SameElectionsSameMerge(es: seq<RawPastElection>, fs: seq<RawPastElection>, m: Table)
    requires TwinnedIn(es, fs) && TwinnedIn(fs, es) && LatestWins(es, m)
    ensures LatestWins(fs, m)
  {
    forall k ensures k in m <==> exists f :: f in fs && Holds(f, k) {
      if k in m { TwinHolds(es, fs, k); }
      if exists f :: f in fs && Holds(f, k) { TwinHolds(fs, es, k); }
    }
    forall k | k in m ensures exists f :: f in fs && IsLatest(fs, f, k) && m[k] == f.members.value[k] {
      var e :| e in es && IsLatest(es, e, k) && m[k] == e.members.value[k];
      var f := TwinIsLatest(es, fs, e, k);
    }
  }

  lemma TwinHolds(es: seq<RawPastElection>, fs: seq<RawPastElection>, k: Key)
    requires TwinnedIn(es, fs) && exists e :: e in es && Holds(e, k)
    ensures exists f :: f in fs && Holds(f, k)
  {
    var e :| e in es && Holds(e, k);
    assert HasTwin(fs, e);
    var f :| f in fs && Twins(e, f);
    assert Holds(f, k);
  }

  lemma TwinIsLatest(es: seq<RawPastElection>, fs: seq<RawPastElection>, e: RawPastElection, k: Key)
    returns (f: RawPastElection)
    requires TwinnedIn(es, fs) && TwinnedIn(fs, es) && e in es && IsLatest(es, e, k)
    ensures f in fs && Twins(e, f) && IsLatest(fs, f, k)
  {
    assert HasTwin(fs, e);
    f :| f in fs && Twins(e, f);
    forall f' | f' in fs && Holds(f', k) ensures f'.electAt <= f.electAt {
      assert HasTwin(es, f');
      var e' :| e' in es && Twins(f', e');
      assert Holds(e', k);
    }
  }

  /** What a merge says of a key, read off the elections: the entry of an election that no later one with the key
      follows, when all elections with its id agree; and no key comes from nowhere. */
  lemma MergeTakesLatest(es: seq<RawPastElection>, m: Table, e: RawPastElection, k: Key)
    requires LatestWins(es, m) && e in es && e.members.Some? && k in e.members.value
    requires forall f :: f in es && f.members.Some? && k in f.members.value ==>
               && f.electAt <= e.electAt
               && (f.electAt == e.electAt ==> f.members == e.members)
    ensures k in m && m[k] == e.members.value[k]
    ensures forall k' :: k' in m ==> exists f :: f in es && f.members.Some? && k' in f.members.value
  {
    assert Holds(e, k);
    var f :| f in es && IsLatest(es, f, k) && m[k] == f.members.value[k];
    forall k' | k' in m ensures exists g :: g in es && g.members.Some? && k' in g.members.value {
      var g :| g in es && Holds(g, k');
    }
  }

  /** The cache key is the same exactly for the same ids in any order. */
  lemma SortedIdsIff(es: seq<RawPastElection>, fs: seq<RawPastElection>)
    ensures SortedIds(es) == SortedIds(fs)
       <==> multiset(seq(|es|, i requires 0 <= i < |es| => es[i].electAt))
            == multiset(seq(|fs|, i requires 0 <= i < |fs| => fs[i].electAt))
  {
    assert Map(es, ElectAt) == seq(|es|, i requires 0 <= i < |es| => es[i].electAt);
    assert Map(fs, ElectAt) == seq(|fs|, i requires 0 <= i < |fs| => fs[i].electAt);
    if multiset(Map(es, ElectAt)) == multiset(Map(fs, ElectAt)) {
      AscendingUnique(SortedIds(es), SortedIds(fs), Identity);
    }
  }

  /** An election's id determines its members. */
  ghost predicate Determined(es: seq<RawPastElection>, fs: seq<RawPastElection>) {
    forall e, f :: e in es && f in fs && e.electAt == f.electAt ==> e.members == f.members
  }

  /** When ids determine members there is exactly one merge. */
  lemma MergeUnique(es: seq<RawPastElection>, m: Table, m': Table)
    requires Determined(es, es) && LatestWins(es, m) && LatestWins(es, m')
    ensures m == m'
  {
    SameKeys(es, m, m');
    forall k | k in m ensures m[k] == m'[k] {
      EntryUnique(es, m, m', k);
    }
  }

  lemma SameKeys(es: seq<RawPastElection>, m: Table, m': Table)
    requires LatestWins(es, m) && LatestWins(es, m')
    ensures m.Keys == m'.Keys
  {
    forall k ensures k in m <==> k in m' {
      SameKey(es, m, m', k);
    }
  }

  lemma SameKey(es: seq<RawPastElection>, m: Table, m': Table, k: Key)
    requires LatestWins(es, m) && LatestWins(es, m')
    ensures k in m <==> k in m'
  {
  }

  lemma EntryUnique(es: seq<RawPastElection>, m: Table, m': Table, k: Key)
    requires Determined(es, es) && LatestWins(es, m) && LatestWins(es, m') && k in m && k in m'
    ensures m[k] == m'[k]
  {
    var e :| e in es && IsLatest(es, e, k) && m[k] == e.members.value[k];
    var e' :| e' in es && IsLatest(es, e', k) && m'[k] == e'.members.value[k];
    assert e.electAt == e'.electAt;
  }

  /** Lists with the same ids have the same elections, up to what an id does not determine. */
  lemma SameIdsTwinned(es: seq<RawPastElection>, fs: seq<RawPastElection>)
    requires SortedIds(es) == SortedIds(fs) && Determined(es, fs)
    ensures TwinnedIn(es, fs)
  {
    forall e | e in es && e.members.Some? ensures HasTwin(fs, e) {
      var f := SameIdIn(es, fs, e);
      assert Twins(e, f);
    }
  }

  lemma SameIdIn(es: seq<RawPastElection>, fs: seq<RawPastElection>, e: RawPastElection) returns (f: RawPastElection)
    requires SortedIds(es) == SortedIds(fs) && e in es
    ensures f in fs && f.electAt == e.electAt
  {
    var ids, ids' := Map(es, ElectAt), Map(fs, ElectAt);
    assert multiset(ids) == multiset(SortedIds(es)) == multiset(ids');
    var i :| 0 <= i < |es| && es[i] == e;
    assert ids[i] in multiset(ids');
    var j :| 0 <= j < |ids'| && ids'[j] == ids[i];
    f := fs[j];
  }

  // ---- the cache ----

  /** `data` is `None` until the first merge is stored. */
  datatype Cache = Cache(ids: seq<int>, data: Option<Table>)

  /** The first critical section: a hit needs equal ids and stored data. */
  function Probe(c: Cache, ids: seq<int>): Option<Table> {
    if ids == c.ids then c.data else None
  }

  class PastElectionsCache {
    var electionIDs: seq<int>
    var data: Option<Table>

    constructor ()
      ensures State() == Cache([], None)
    {
      electionIDs, data := [], None;
    }

    function State(): Cache
      reads this
    {
      Cache(electionIDs, data)
    }

    method ProbeLocked(ids: seq<int>) returns (hit: Option<Table>)
      ensures hit == Probe(State(), ids)
    {
      if ids == electionIDs && data.Some? {
        return data;
      }
      return None;
    }

    method StoreLocked(ids: seq<int>, merged: Table)
      modifies this
      ensures State() == Cache(ids, Some(merged))
    {
      electionIDs := ids;
      data := Some(merged);
    }

    /** One call that nothing interferes with; `fetched` is `None` when the elections cannot be fetched. */
    method GetAllPoolAddresses(fetched: Option<seq<RawPastElection>>) returns (r: Option<Table>)
      modifies this
      ensures r.None? <==> fetched.None?
      ensures fetched.None? ==> State() == old(State())
      ensures fetched.Some? ==>
                match Probe(old(State()), SortedIds(fetched.value))
                case Some(hit) => r.value == hit && State() == old(State())
                case None => LatestWins(fetched.value, r.value) && State() == Cache(SortedIds(fetched.value), r)
    {
      if fetched.None? {
        return None;
      }
      var ids := SortedIds(fetched.value);
      var hit := ProbeLocked(ids);
      if hit.Some? {
        return hit;
      }
      var merged := MergeElections(fetched.value);
      StoreLocked(ids, merged);
      return Some(merged);
    }
  }

  // ---- concurrent calls ----

  /** How far a call has come. A miss has merged what it fetched, outside the lock. */
  datatype Call =
    | Fetched(parsed: seq<RawPastElection>)
    | Missed(parsed: seq<RawPastElection>, merged: Table)
    | Returned(parsed: seq<RawPastElection>, result: Table)

  /** The cache, the calls so far, and every list of elections any of them has fetched. */
  datatype State = State(cache: Cache, calls: map<nat, Call>, fetched: set<seq<RawPastElection>>)

  predicate Init(s: State) {
    s == State(Cache([], None), map[], {})
  }

  ghost predicate Fetch(s: State, s': State, t: nat, parsed: seq<RawPastElection>) {
    t !in s.calls && s' == State(s.cache, s.calls[t := Fetched(parsed)], s.fetched + {parsed})
  }

  ghost predicate ProbeStep(s: State, s': State, t: nat, merged: Table) {
    && t in s.calls && s.calls[t].Fetched?
    && var parsed := s.calls[t].parsed;
       match Probe(s.cache, SortedIds(parsed))
       case Some(hit) => s' == s.(calls := s.calls[t := Returned(parsed, hit)])
       case None => LatestWins(parsed, merged) && s' == s.(calls := s.calls[t := Missed(parsed, merged)])
  }

  ghost predicate StoreStep(s: State, s': State, t: nat) {
    && t in s.calls && s.calls[t].Missed?
    && var c := s.calls[t];
       s' == s.(cache := Cache(SortedIds(c.parsed), Some(c.merged)),
                  calls := s.calls[t := Returned(c.parsed, c.merged)])
  }

  /** Some call fetches a list, probes the cache, or stores its merge. */
  ghost predicate Next(s: State, s': State) {
    || (exists t, parsed :: Fetch(s, s', t, parsed))
    || (exists t, merged :: ProbeStep(s, s', t, merged))
    || (exists t :: StoreStep(s, s', t))
  }

  ghost predicate Run(states: seq<State>) {
    && |states| > 0 && Init(states[0])
    && forall i :: 0 < i < |states| ==> Next(states[i - 1], states[i])
  }

  /** Some call has fetched a list with these ids whose merge is `m`. */
  ghost predicate MergeOfFetched(s: State, ids: seq<int>, m: Table) {
    exists f :: f in s.fetched && SortedIds(f) == ids && LatestWins(f, m)
  }

  ghost predicate CallInv(s: State, c: Call) {
    && c.parsed in s.fetched
    && match c
       case Fetched(_) => true
       case Missed(parsed, merged) => LatestWins(parsed, merged)
       case Returned(parsed, result) => MergeOfFetched(s, SortedIds(parsed), result)
  }

  ghost predicate Inv(s: State) {
    && (s.cache.data.Some? ==> MergeOfFetched(s, s.cache.ids, s.cache.data.value))
    && (forall t :: t in s.calls ==> CallInv(s, s.calls[t]))
  }

  lemma NextKeepsInv(s: State, s': State)
    requires Inv(s) && Next(s, s')
    ensures Inv(s')
  {
    if t, parsed :| Fetch(s, s', t, parsed) {
      FetchKeepsInv(s, s', t, parsed);
    } else if t, merged :| ProbeStep(s, s', t, merged) {
      ProbeKeepsInv(s, s', t, merged);
    } else {
      var t :| StoreStep(s, s', t);
      StoreKeepsInv(s, s', t);
    }
  }

  lemma FetchKeepsInv(s: State, s': State, t: nat, parsed: seq<RawPastElection>)
    requires Inv(s) && Fetch(s, s', t, parsed)
    ensures Inv(s')
  {
    forall ids, m | MergeOfFetched(s, ids, m) ensures MergeOfFetched(s', ids, m) {
      var f :| f in s.fetched && SortedIds(f) == ids && LatestWins(f, m);
      assert f in s'.fetched;
    }
    forall u | u in s'.calls ensures CallInv(s', s'.calls[u]) {
      if u != t { assert CallInv(s, s.calls[u]); }
    }
  }

  lemma CallInvFrame(s: State, s': State, c: Call)
    requires s.fetched == s'.fetched && CallInv(s, c)
    ensures CallInv(s', c)
  {
    if c.Returned? {
      var f :| f in s.fetched && SortedIds(f) == SortedIds(c.parsed) && LatestWins(f, c.result);
      assert f in s'.fetched;
    }
  }

  lemma ProbeKeepsInv(s: State, s': State, t: nat, merged: Table)
    requires Inv(s) && ProbeStep(s, s', t, merged)
    ensures Inv(s')
  {
    assert CallInv(s, s.calls[t]);
    if s.cache.data.Some? {
      var f :| f in s.fetched && SortedIds(f) == s.cache.ids && LatestWins(f, s.cache.data.value);
      assert f in s'.fetched;
    }
    forall u | u in s'.calls ensures CallInv(s', s'.calls[u]) {
      if u != t {
        assert CallInv(s, s.calls[u]);
        CallInvFrame(s, s', s.calls[u]);
      }
    }
  }

  lemma StoreKeepsInv(s: State, s': State, t: nat)
    requires Inv(s) && StoreStep(s, s', t)
    ensures Inv(s')
  {
    assert CallInv(s, s.calls[t]) && s.calls[t].parsed in s'.fetched;
    forall u | u in s'.calls ensures CallInv(s', s'.calls[u]) {
      if u != t {
        assert CallInv(s, s.calls[u]);
        CallInvFrame(s, s', s.calls[u]);
      }
    }
  }

  lemma {:induction false} RunKeepsInv(states: seq<State>)
    requires Run(states)
    ensures Inv(states[|states| - 1])
  {
    if |states| > 1 {
      RunKeepsInv(states[..|states| - 1]);
      NextKeepsInv(states[|states| - 2], states[|states| - 1]);
    }
  }

  /** In every interleaving the stored ids and table belong together, and a call returns the merge of a list fetched
      by some call, its own or an earlier one, with the ids it fetched itself. */
  lemma CacheIsConsistent(states: seq<State>, t: nat)
    requires Run(states)
    ensures var s := states[|states| - 1];
            && (s.cache.data.Some? ==> MergeOfFetched(s, s.cache.ids, s.cache.data.value))
            && (t in s.calls && s.calls[t].Returned? ==>
                  MergeOfFetched(s, SortedIds(s.calls[t].parsed), s.calls[t].result))
  {
    RunKeepsInv(states);
  }

  ghost predicate SameMerges(f: seq<RawPastElection>, g: seq<RawPastElection>) {
    forall m :: LatestWins(f, m) ==> LatestWins(g, m)
  }

  /** Lists that share their ids also share their merges. */
  ghost predicate IdsTellMerges(lists: iset<seq<RawPastElection>>) {
    forall f, g :: f in lists && g in lists && SortedIds(f) == SortedIds(g) ==> SameMerges(f, g)
  }

  ghost predicate RunOver(states: seq<State>, lists: iset<seq<RawPastElection>>) {
    Run(states) && forall f :: f in states[|states| - 1].fetched ==> f in lists
  }

  /** What the uncached code promises: a call returns a merge of the elections it fetched itself. */
  ghost predicate OwnMerges(states: seq<State>)
    requires |states| > 0
  {
    var calls := states[|states| - 1].calls;
    forall t :: t in calls && calls[t].Returned? ==> LatestWins(calls[t].parsed, calls[t].result)
  }

  /** In every run that fetches only such lists, every call returns a merge of what it fetched. */
  ghost predicate CacheInvisible(lists: iset<seq<RawPastElection>>) {
    forall states :: RunOver(states, lists) ==> OwnMerges(states)
  }

  lemma HitsAreOwnMerges(states: seq<State>, lists: iset<seq<RawPastElection>>)
    requires RunOver(states, lists) && IdsTellMerges(lists)
    ensures OwnMerges(states)
  {
    RunKeepsInv(states);
    var s := states[|states| - 1];
    forall t | t in s.calls && s.calls[t].Returned? ensures LatestWins(s.calls[t].parsed, s.calls[t].result) {
      HitIsOwnMerge(s, s.calls[t], lists);
    }
  }

  lemma HitIsOwnMerge(s: State, c: Call, lists: iset<seq<RawPastElection>>)
    requires CallInv(s, c) && c.Returned? && IdsTellMerges(lists)
    requires forall f :: f in s.fetched ==> f in lists
    ensures LatestWins(c.parsed, c.result)
  {
    var f :| f in s.fetched && SortedIds(f) == SortedIds(c.parsed) && LatestWins(f, c.result);
    assert SameMerges(f, c.parsed);
  }

  lemma UntoldMergeShows(lists: iset<seq<RawPastElection>>) returns (states: seq<State>)
    requires !IdsTellMerges(lists)
    ensures RunOver(states, lists) && !OwnMerges(states)
  {
    var f, g :| f in lists && g in lists && SortedIds(f) == SortedIds(g) && !SameMerges(f, g);
    states := StaleRun(f, g, lists);
  }

  lemma StaleRun(f: seq<RawPastElection>, g: seq<RawPastElection>, lists: iset<seq<RawPastElection>>)
    returns (states: seq<State>)
    requires f in lists && g in lists && SortedIds(f) == SortedIds(g) && !SameMerges(f, g)
    ensures RunOver(states, lists) && !OwnMerges(states)
  {
    var m :| LatestWins(f, m) && !LatestWins(g, m);
    states := StaleHit(f, g, m);
    StaleCallShows(states, g, m);
    OverBoth(states, f, g, lists);
  }

  lemma OverBoth(states: seq<State>, f: seq<RawPastElection>, g: seq<RawPastElection>,
                 lists: iset<seq<RawPastElection>>)
    requires Run(states) && states[|states| - 1].fetched == {f, g} && f in lists && g in lists
    ensures RunOver(states, lists)
  {
  }

  lemma StaleCallShows(states: seq<State>, g: seq<RawPastElection>, m: Table)
    requires |states| > 0 && 1 in states[|states| - 1].calls && states[|states| - 1].calls[1] == Returned(g, m)
    requires !LatestWins(g, m)
    ensures !OwnMerges(states)
  {
  }

  /** Exactly when the cache cannot be told from the uncached merge: when the ids of a list tell its merge. */
  lemma CacheInvisibleIff(lists: iset<seq<RawPastElection>>)
    ensures CacheInvisible(lists) <==> IdsTellMerges(lists)
  {
    if IdsTellMerges(lists) {
      forall states | RunOver(states, lists) ensures OwnMerges(states) {
        HitsAreOwnMerges(states, lists);
      }
    } else {
      var states := UntoldMergeShows(lists);
    }
  }

  lemma SameIdsSameMerges(f: seq<RawPastElection>, g: seq<RawPastElection>)
    requires SortedIds(f) == SortedIds(g) && Determined(f, g)
    ensures SameMerges(f, g)
  {
    SameIdsTwinned(f, g);
    SameIdsTwinned(g, f);
    forall m | LatestWins(f, m) ensures LatestWins(g, m) {
      SameElectionsSameMerge(f, g, m);
    }
  }

  /** In all that was fetched, an election's id determines its members. */
  ghost predicate MembersFixed(s: State) {
    forall f, g :: f in s.fetched && g in s.fetched ==> Determined(f, g)
  }

  ghost function FetchedLists(s: State): iset<seq<RawPastElection>> {
    iset f | f in s.fetched
  }

  lemma MembersTellMerges(s: State)
    requires MembersFixed(s)
    ensures IdsTellMerges(FetchedLists(s))
  {
    forall f, g | f in FetchedLists(s) && g in FetchedLists(s) && SortedIds(f) == SortedIds(g)
      ensures SameMerges(f, g)
    {
      SameIdsSameMerges(f, g);
    }
  }

  /** In particular, if an election's members never change once it is past, however its bonuses grow, a call returns the
      merge of exactly the elections it fetched, and there is only one such table. */
  lemma CacheRefinesMerge(states: seq<State>, t: nat, m: Table)
    requires Run(states) && MembersFixed(states[|states| - 1])
    requires t in states[|states| - 1].calls && states[|states| - 1].calls[t].Returned?
    ensures var c := states[|states| - 1].calls[t];
            LatestWins(c.parsed, m) <==> m == c.result
  {
    var s := states[|states| - 1];
    var c := s.calls[t];
    MembersTellMerges(s);
    HitsAreOwnMerges(states, FetchedLists(s));
    if LatestWins(c.parsed, m) {
      RunKeepsInv(states);
      assert CallInv(s, c);
      MergeUnique(c.parsed, m, c.result);
    }
  }

  /** Two calls one after the other, the second of which hits the cache: it returns the merge of the first's list. */
  lemma SecondCallHits(one: seq<RawPastElection>, two: seq<RawPastElection>, table: Table) returns (states: seq<State>)
    requires SortedIds(one) == SortedIds(two) && LatestWins(one, table)
    ensures Run(states)
    ensures var s := states[|states| - 1];
            1 in s.calls && s.calls[1] == Returned(two, table) && s.fetched == {one, two}
  {
    states := FirstCall(one, table);
    var s3 := states[|states| - 1];
    var s4 := State(s3.cache, s3.calls[1 := Fetched(two)], {one, two});
    var s5 := State(s3.cache, s4.calls[1 := Returned(two, table)], {one, two});
    states := Extended(states, s4) by { assert Fetch(s3, s4, 1, two); }
    states := Extended(states, s5) by { assert ProbeStep(s4, s5, 1, table); }
  }

  /** Whenever two lists have the same ids but the merge of the first is not one of the second, fetching one after the
      other makes the second call return the merge of the first. */
  lemma StaleHit(one: seq<RawPastElection>, two: seq<RawPastElection>, table: Table) returns (states: seq<State>)
    requires SortedIds(one) == SortedIds(two) && LatestWins(one, table) && !LatestWins(two, table)
    ensures Run(states)
    ensures var s := states[|states| - 1];
            1 in s.calls && s.calls[1] == Returned(two, table) && s.fetched == {one, two}
  {
    states := SecondCallHits(one, two, table);
  }

  /** The case the cache is made for: between two calls the running round's bonuses have grown. The second call hits
      the cache, members are still determined, and the cached table is the merge of what the call fetched itself. */
  lemma GrownBonusesHit(table: Table, stake: int, before: int, after: int) returns (states: seq<State>)
    ensures Run(states) && MembersFixed(states[|states| - 1])
    ensures var s := states[|states| - 1];
            var two := [RawPastElection(1, Some(table), Some(stake), Some(after))];
            && s.fetched == {[RawPastElection(1, Some(table), Some(stake), Some(before))], two}
            && 1 in s.calls && s.calls[1] == Returned(two, table) && LatestWins(two, table)
  {
    var one := [RawPastElection(1, Some(table), Some(stake), Some(before))];
    var two := [RawPastElection(1, Some(table), Some(stake), Some(after))];
    MergeOfOne(one[0], table);
    assert Map(one, ElectAt) == Map(two, ElectAt);
    states := SecondCallHits(one, two, table);
    CacheRefinesMerge(states, 1, table);
  }

  lemma FirstCall(one: seq<RawPastElection>, table: Table) returns (states: seq<State>)
    requires LatestWins(one, table)
    ensures Run(states)
    ensures states[|states| - 1] == State(Cache(SortedIds(one), Some(table)), map[0 := Returned(one, table)], {one})
  {
    var s0 := State(Cache([], None), map[], {});
    var s1 := State(Cache([], None), map[0 := Fetched(one)], {one});
    var s2 := State(Cache([], None), map[0 := Missed(one, table)], {one});
    var s3 := State(Cache(SortedIds(one), Some(table)), map[0 := Returned(one, table)], {one});
    states := [s0];
    states := Extended(states, s1) by { assert Fetch(s0, s1, 0, one); }
    states := Extended(states, s2) by { assert ProbeStep(s1, s2, 0, table); }
    states := Extended(states, s3) by { assert StoreStep(s2, s3, 0); }
  }

  lemma Extended(states: seq<State>, s: State) returns (states': seq<State>)
    requires Run(states) && Next(states[|states| - 1], s)
    ensures Run(states') && states'[|states'| - 1] == s
  {
    states' := states + [s];
  }

  /** A past election that loses its only member keeps its id, so the loss goes unnoticed. */
  lemma LostMemberGoesUnnoticed() returns (states: seq<State>)
    ensures Run(states)
    ensures var s := states[|states| - 1];
            && 1 in s.calls && s.calls[1].Returned?
            && s.calls[1].parsed == [RawPastElection(1, Some(map[]), None, None)] && s.calls[1].result != map[]
  {
    var table: Table := map[7 := PoolEntry(AccountID(-1, 9), 100)];
    var one, two := [RawPastElection(1, Some(table), None, None)], [RawPastElection(1, Some(map[]), None, None)];
    MergeOfOne(one[0], table);
    assert Map(one, ElectAt) == Map(two, ElectAt);
    assert 7 in table;
    assert !LatestWins(two, table);
    states := StaleHit(one, two, table);
  }

  lemma MergeOfOne(e: RawPastElection, m: Table)
    requires e.members == Some(m)
    ensures LatestWins([e], m)
  {
    assert e in [e];
    forall k | k in m ensures exists f :: f in [e] && IsLatest([e], f, k) && m[k] == f.members.value[k] {
      assert IsLatest([e], e, k);
    }
  }
}
