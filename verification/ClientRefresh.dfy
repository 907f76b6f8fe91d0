/** Refreshing the lite client: a read-locked check, then a second check and the refresh under the write lock. */
module ClientRefresh {
  import opened Options

  /** Seven days, in nanoseconds. */
  const CACHE_TTL: int := 7 * 24 * 60 * 60 * 1_000_000_000

  type Client = nat

  class Service {
    var client: Client
    var clientInitAt: int

    constructor (client: Client, now: int)
      ensures this.client == client && clientInitAt == now
    {
      this.client, clientInitAt := client, now;
    }

    /** A call nobody interferes with: the clock reads `now` at the first check, `locked` under the write lock and
        `done` once the new client, or the failure to build one, is there. */
    method CurrentClient(now: int, locked: int, done: int, built: Option<Client>) returns (r: Client)
      requires now <= locked <= done
      modifies this
      ensures r == client
      ensures var refreshed := now - old(clientInitAt) >= CACHE_TTL && built.Some?;
              && client == (if refreshed then built.value else old(client))
              && clientInitAt == (if refreshed then done else old(clientInitAt))
    {
      if now - clientInitAt < CACHE_TTL {
        return client;
      }
      if locked - clientInitAt >= CACHE_TTL {
        if built.None? {
          return client;
        }
        client := built.value;
        clientInitAt := done;
      }
      return client;
    }
  }

  // ---- concurrent calls ----

  /** A client put in place at a time; the first one is the client the service starts with. */
  datatype Install = Install(client: Client, at: int)

  /** `from` is the install that was current when the call began. */
  datatype Call =
    | Begun(from: nat)
    | SawStale(from: nat)
    | Refreshing(from: nat)
    | Returned(from: nat, client: Client, at: int, failed: bool)

  datatype State = State(
    now: int, client: Client, initAt: int, writer: Option<nat>, calls: map<nat, Call>, installs: seq<Install>)

  predicate Init(s: State) {
    s.writer.None? && s.calls == map[] && s.installs == [Install(s.client, s.initAt)] && s.initAt <= s.now
  }

  function Return(s: State, t: nat, failed: bool): State
    requires t in s.calls
  {
    s.(calls := s.calls[t := Returned(s.calls[t].from, s.client, s.now, failed)])
  }

  predicate Tick(s: State, s': State, later: int) {
    s.now <= later && s' == s.(now := later)
  }

  predicate Begin(s: State, s': State, t: nat) {
    t !in s.calls && |s.installs| > 0 && s' == s.(calls := s.calls[t := Begun(|s.installs| - 1)])
  }

  /** The check under the read lock, which a writer keeps out. */
  predicate ReadSection(s: State, s': State, t: nat) {
    && t in s.calls && s.calls[t].Begun? && s.writer.None?
    && s' == if s.now - s.initAt < CACHE_TTL then Return(s, t, false)
             else s.(calls := s.calls[t := SawStale(s.calls[t].from)])
  }

  /** Taking the write lock and checking again: another call may have refreshed in the meantime. */
  predicate AcquireWrite(s: State, s': State, t: nat) {
    && t in s.calls && s.calls[t].SawStale? && s.writer.None?
    && s' == if s.now - s.initAt < CACHE_TTL then Return(s, t, false)
             else s.(writer := Some(t), calls := s.calls[t := Refreshing(s.calls[t].from)])
  }

  /** The new client is ready: install it, stamp it with the time now, and unlock. */
  predicate Succeed(s: State, s': State, t: nat, built: Client) {
    && t in s.calls && s.calls[t].Refreshing? && s.writer == Some(t)
    && s' == Return(s.(client := built, initAt := s.now, writer := None,
                       installs := s.installs + [Install(built, s.now)]), t, false)
  }

  /** Building a client failed: keep the current one and unlock. */
  predicate Fail(s: State, s': State, t: nat) {
    && t in s.calls && s.calls[t].Refreshing? && s.writer == Some(t)
    && s' == Return(s.(writer := None), t, true)
  }

  ghost predicate Next(s: State, s': State) {
    || (exists later :: Tick(s, s', later))
    || (exists t :: Begin(s, s', t))
    || (exists t :: ReadSection(s, s', t))
    || (exists t :: AcquireWrite(s, s', t))
    || (exists t, built :: Succeed(s, s', t, built))
    || (exists t :: Fail(s, s', t))
  }

  ghost predicate Run(states: seq<State>) {
    && |states| > 0 && Init(states[0])
    && forall i :: 0 < i < |states| ==> Next(states[i - 1], states[i])
  }

  /** What a client returned at time `at` is: installed by then and no earlier than the install current when the call
      began, and younger than the limit unless the call itself tried to refresh and failed. */
  predicate Delivered(installs: seq<Install>, from: nat, client: Client, at: int, failed: bool, k: nat) {
    && from <= k < |installs| && installs[k].client == client && installs[k].at <= at
    && (failed || at - installs[k].at < CACHE_TTL)
  }

  ghost predicate CallInv(s: State, c: Call) {
    && c.from < |s.installs|
    && (c.Returned? ==> exists k :: Delivered(s.installs, c.from, c.client, c.at, c.failed, k))
  }

  ghost predicate Inv(s: State) {
    && |s.installs| > 0
    && s.installs[|s.installs| - 1] == Install(s.client, s.initAt)
    && s.initAt <= s.now
    && (forall i :: 0 < i < |s.installs| ==> s.installs[i - 1].at + CACHE_TTL <= s.installs[i].at)
    && (s.writer.Some? ==> s.now - s.initAt >= CACHE_TTL)
    && (forall t :: t in s.calls ==> CallInv(s, s.calls[t]))
  }

  /** Growing the list of installs keeps what is known of a call. */
  lemma CallInvGrows(s: State, s': State, c: Call)
    requires CallInv(s, c) && |s.installs| <= |s'.installs| && s'.installs[..|s.installs|] == s.installs
    ensures CallInv(s', c)
  {
    assert forall k :: 0 <= k < |s.installs| ==> s'.installs[k] == s.installs[k];
    if c.Returned? {
      var k :| Delivered(s.installs, c.from, c.client, c.at, c.failed, k);
      assert Delivered(s'.installs, c.from, c.client, c.at, c.failed, k);
    }
  }

  lemma ReturnDelivers(s: State, t: nat, failed: bool)
    requires Inv(s) && t in s.calls && (failed || s.now - s.initAt < CACHE_TTL)
    ensures CallInv(s, Return(s, t, failed).calls[t])
  {
    assert CallInv(s, s.calls[t]);
    assert Delivered(s.installs, s.calls[t].from, s.client, s.now, failed, |s.installs| - 1);
  }

  /** Steps that change one call, and perhaps add an install, keep the calls' invariant. */
  lemma OthersKeep(s: State, s': State, t: nat)
    requires Inv(s) && |s.installs| <= |s'.installs| && s'.installs[..|s.installs|] == s.installs
    requires forall u :: u in s'.calls && u != t ==> u in s.calls && s'.calls[u] == s.calls[u]
    requires t in s'.calls ==> CallInv(s', s'.calls[t])
    ensures forall u :: u in s'.calls ==> CallInv(s', s'.calls[u])
  {
    forall u | u in s'.calls && u != t ensures CallInv(s', s'.calls[u]) {
      assert CallInv(s, s.calls[u]);
      CallInvGrows(s, s', s.calls[u]);
    }
  }

  lemma SucceedKeepsInv(s: State, s': State, t: nat, built: Client)
    requires Inv(s) && Succeed(s, s', t, built)
    ensures Inv(s')
  {
    assert CallInv(s, s.calls[t]);
    assert Delivered(s'.installs, s.calls[t].from, built, s.now, false, |s.installs|);
    OthersKeep(s, s', t);
  }

  lemma SectionKeepsInv(s: State, s': State, t: nat)
    requires Inv(s) && (ReadSection(s, s', t) || AcquireWrite(s, s', t) || Fail(s, s', t))
    ensures Inv(s')
  {
    assert CallInv(s, s.calls[t]);
    if s'.calls[t].Returned? {
      ReturnDelivers(s, t, Fail(s, s', t));
      CallInvGrows(s, s', s'.calls[t]);
    }
    OthersKeep(s, s', t);
  }

  lemma NextKeepsInv(s: State, s': State)
    requires Inv(s) && Next(s, s')
    ensures Inv(s')
  {
    if t, built :| Succeed(s, s', t, built) {
      SucceedKeepsInv(s, s', t, built);
    } else if t :| ReadSection(s, s', t) || AcquireWrite(s, s', t) || Fail(s, s', t) {
      SectionKeepsInv(s, s', t);
    } else if t :| Begin(s, s', t) {
      OthersKeep(s, s', t);
    } else {
      forall u | u in s'.calls ensures CallInv(s', s'.calls[u]) {
        assert CallInv(s, s.calls[u]);
        CallInvGrows(s, s', s.calls[u]);
      }
    }
  }

  lemma {:induction false} RunKeepsInv(states: seq<State>)
    requires Run(states)
    ensures Inv(states[|states| - 1])
  {
    if |states| > 1 {
      RunKeepsInv(states[..|states| - 1]);
      NextKeepsInv(states[|states| - 2], states[|states| - 1]);
    }
  }

  /** In every interleaving refreshes are at least the limit apart, and a returned client was the installed one at some
      time during its call; it is older than the limit only if the call's own attempt to refresh failed. */
  lemma RefreshIsSafe(states: seq<State>, t: nat)
    requires Run(states)
    ensures CACHE_TTL == 604_800_000_000_000
    ensures var s := states[|states| - 1];
            && (forall i :: 0 < i < |s.installs| ==> s.installs[i - 1].at + 604_800_000_000_000 <= s.installs[i].at)
            && (t in s.calls && s.calls[t].Returned? ==>
                  var c := s.calls[t];
                  exists k :: Delivered(s.installs, c.from, c.client, c.at, c.failed, k))
  {
    RunKeepsInv(states);
    var s := states[|states| - 1];
    if t in s.calls { assert CallInv(s, s.calls[t]); }
  }

  /** Only a successful refresh changes the client or its time stamp, and it adds exactly one install; in particular a
      failed one leaves both as they were. */
  lemma OnlySuccessInstalls(s: State, s': State)
    requires Next(s, s')
    ensures s'.installs == s.installs ==> s'.client == s.client && s'.initAt == s.initAt
    ensures s'.installs != s.installs ==>
              && s'.installs == s.installs + [Install(s'.client, s'.initAt)]
              && exists t, built :: Succeed(s, s', t, built)
    ensures (exists t :: Fail(s, s', t)) ==> s'.installs == s.installs
  {
    if t, built :| Succeed(s, s', t, built) {
      assert |s'.installs| == |s.installs| + 1;
    }
  }

  lemma {:induction false} InstallsSpread(installs: seq<Install>, k: nat)
    requires k < |installs|
    requires forall i :: 0 < i < |installs| ==> installs[i - 1].at + CACHE_TTL <= installs[i].at
    ensures installs[0].at + k * CACHE_TTL <= installs[k].at
  {
    if k > 0 { InstallsSpread(installs, k - 1); }
  }

  /** However many calls pile up, there are never more refreshes than whole limits that have passed. */
  lemma RefreshesAreFew(states: seq<State>)
    requires Run(states)
    ensures var s := states[|states| - 1];
            s.installs != [] && (|s.installs| - 1) * CACHE_TTL <= s.now - s.installs[0].at
  {
    RunKeepsInv(states);
    var s := states[|states| - 1];
    InstallsSpread(s.installs, |s.installs| - 1);
  }

  /** A call nobody interferes with, as steps of a run: with a fresh client it returns the client and changes nothing,
      with an old one it installs and returns the client built, or keeps and returns the old one if building fails. */
  lemma UndisturbedCall(states: seq<State>, t: nat, built: Option<Client>) returns (states': seq<State>)
    requires Run(states)
    requires var s := states[|states| - 1]; s.writer.None? && t !in s.calls
    ensures Run(states') && states <= states'
    ensures var s, s' := states[|states| - 1], states'[|states'| - 1];
            var stale := s.now - s.initAt >= 604_800_000_000_000;
            && t in s'.calls && s'.calls[t].Returned? && s'.calls[t].client == s'.client && s'.now == s.now
            && s'.writer.None?
            && s'.client == (if stale && built.Some? then built.value else s.client)
            && s'.initAt == (if stale && built.Some? then s.now else s.initAt)
  {
    var s := states[|states| - 1];
    RunKeepsInv(states);
    var s1 := s.(calls := s.calls[t := Begun(|s.installs| - 1)]);
    states' := Extended(states, s1) by { assert Begin(s, s1, t); }
    if s.now - s.initAt < CACHE_TTL {
      var s2 := Return(s1, t, false);
      states' := Extended(states', s2) by { assert ReadSection(s1, s2, t); }
    } else {
      var s2 := s1.(calls := s1.calls[t := SawStale(|s.installs| - 1)]);
      states' := Extended(states', s2) by { assert ReadSection(s1, s2, t); }
      states' := UndisturbedRefresh(states', t, built);
    }
  }

  lemma UndisturbedRefresh(states: seq<State>, t: nat, built: Option<Client>) returns (states': seq<State>)
    requires Run(states)
    requires var s := states[|states| - 1];
             s.writer.None? && t in s.calls && s.calls[t].SawStale? && s.now - s.initAt >= CACHE_TTL
    ensures Run(states') && states <= states'
    ensures var s, s' := states[|states| - 1], states'[|states'| - 1];
            && t in s'.calls && s'.calls[t].Returned? && s'.calls[t].client == s'.client && s'.now == s.now
            && s'.writer.None?
            && s'.client == (if built.Some? then built.value else s.client)
            && s'.initAt == (if built.Some? then s.now else s.initAt)
  {
    var s := states[|states| - 1];
    var s1 := s.(writer := Some(t), calls := s.calls[t := Refreshing(s.calls[t].from)]);
    states' := Extended(states, s1) by { assert AcquireWrite(s, s1, t); }
    if built.Some? {
      var s2 := Return(s1.(client := built.value, initAt := s1.now, writer := None,
                           installs := s1.installs + [Install(built.value, s1.now)]), t, false);
      states' := Extended(states', s2) by { assert Succeed(s1, s2, t, built.value); }
    } else {
      var s2 := Return(s1.(writer := None), t, true);
      states' := Extended(states', s2) by { assert Fail(s1, s2, t); }
    }
  }

  lemma Extended(states: seq<State>, s: State) returns (states': seq<State>)
    requires Run(states) && Next(states[|states| - 1], s)
    ensures Run(states') && states <= states' && states'[|states'| - 1] == s
  {
    states' := states + [s];
  }
}
