/** Choosing a liteserver for each request: round-robin over the servers that are connected and not excluded. */
module RoundRobin {
  import opened Options
  import opened Numbers

  /** Connected servers below `n` that are not excluded, in order. */
  function Candidates(n: nat, up: nat -> bool, excluded: set<int>): (c: seq<nat>)
    ensures forall s: nat :: s in c <==> s < n && up(s) && s !in excluded
    ensures forall i, j :: 0 <= i < j < |c| ==> c[i] < c[j]
    ensures |c| <= n
  {
    if n == 0 then [] else
      var front := Candidates(n - 1, up, excluded);
      assert forall i :: 0 <= i < |front| ==> front[i] in front;
      if n - 1 in excluded || !up(n - 1) then front else front + [n - 1]
  }

  /** The counter is unsigned, but it is reduced as a signed 64-bit integer. */
  function AsInt64(u: uint64): int {
    if u < TWO_63 then u else u - TWO_64
  }

  /** Go's remainder: its sign follows the dividend. */
  function TruncatedMod(a: int, m: nat): int
    requires m > 0
  {
    if a >= 0 then a % m else -((-a) % m)
  }

  /** `Crash` stands for the panics: a negative index, or a client without any server. */
  datatype Pick = Server(index: nat) | Crash

  /** Which server the request holding counter value `ticket` goes to. */
  function Choose(n: nat, up: nat -> bool, excluded: set<int>, ticket: uint64): Pick {
    if n == 0 then Crash else
      var c := Candidates(n, up, excluded);
      var pos := TruncatedMod(AsInt64(ticket), if |c| == 0 then n else |c|);
      if pos < 0 then Crash else if |c| == 0 then Server(pos) else Server(c[pos])
  }

  /** The servers excluded in one retry session, and the one it used last. */
  class RetryExclude {
    var excluded: set<int>
    var lastUsed: int

    constructor ()
      ensures excluded == {} && lastUsed == 0
    {
      excluded, lastUsed := {}, 0;
    }
  }

  class RoundRobinClient {
    const servers: nat
    const targetBlock: Option<nat>
    var counter: uint64

    constructor (servers: nat, counter: uint64, targetBlock: Option<nat>)
      ensures this.servers == servers && this.counter == counter && this.targetBlock == targetBlock
    {
      this.servers, this.counter, this.targetBlock := servers, counter, targetBlock;
    }

    /** Bumps the counter, which wraps around, and picks a server; the exclusions are only read. */
    method NextClient(up: nat -> bool, exclude: RetryExclude?) returns (p: Pick)
      modifies this`counter
      ensures counter == if servers == 0 then old(counter) else (old(counter) + 1) % TWO_64
      ensures p == Choose(servers, up, if exclude == null then {} else exclude.excluded, counter)
    {
      if servers == 0 {
        return Crash;
      }
      var excluded: set<int> := if exclude == null then {} else exclude.excluded;
      var healthy: seq<nat> := [];
      for i := 0 to servers
        invariant healthy == Candidates(i, up, excluded)
      {
        if i !in excluded && up(i) {
          healthy := healthy + [i];
        }
      }
      counter := (counter + 1) % TWO_64;
      var pos := TruncatedMod(AsInt64(counter), if |healthy| == 0 then servers else |healthy|);
      if pos < 0 {
        return Crash;
      }
      return Server(if |healthy| == 0 then pos else healthy[pos]);
    }

    /** Picks a server and notes it in the session the request belongs to, if any. */
    method ClientForRequest(up: nat -> bool, exclude: RetryExclude?) returns (p: Pick)
      modifies this`counter, exclude
      ensures counter == if servers == 0 then old(counter) else (old(counter) + 1) % TWO_64
      ensures p == Choose(servers, up, if exclude == null then {} else old(exclude.excluded), counter)
      ensures exclude != null ==> exclude.excluded == old(exclude.excluded)
      ensures exclude != null && p.Server? ==> exclude.lastUsed == p.index
    {
      p := NextClient(up, exclude);
      if exclude != null && p.Server? {
        exclude.lastUsed := p.index;
      }
    }

    /** A client pinned to a block. It starts from a copy of the counter, so clients pinned one after the other
        begin at the same server, and what they use up does not advance this client. */
    method WithBlock(block: nat) returns (r: RoundRobinClient)
      ensures fresh(r) && r.servers == servers && r.counter == counter && r.targetBlock == Some(block)
    {
      r := new RoundRobinClient(servers, counter, Some(block));
    }
  }

  /** Below half of its range the counter picks a connected, non-excluded server whenever there is one; a
      disconnected or excluded server is picked only when there is none. */
  lemma PickIsHealthyIff(n: nat, up: nat -> bool, excluded: set<int>, ticket: uint64)
    requires n > 0 && ticket < TWO_63
    ensures Choose(n, up, excluded, ticket).Server?
    ensures var s := Choose(n, up, excluded, ticket).index;
            s < n && ((up(s) && s !in excluded) <==> exists t: nat :: t < n && up(t) && t !in excluded)
  {
    var c := Candidates(n, up, excluded);
    if |c| == 0 {
      assert forall t: nat :: t < n && up(t) && t !in excluded ==> t in c;
    } else {
      var s := Choose(n, up, excluded, ticket).index;
      assert s in c;
    }
  }

  /** The pick itself: below half of its range the counter's remainder indexes the candidates, or all servers when there
      is no candidate; from there on a pick that does not crash is the first of them. */
  lemma PickIsIndexed(n: nat, up: nat -> bool, excluded: set<int>, ticket: uint64)
    requires n > 0
    ensures var c := Candidates(n, up, excluded);
            && (ticket < 0x8000_0000_0000_0000 ==>
                  Choose(n, up, excluded, ticket) == Server(if |c| == 0 then ticket % n else c[ticket % |c|]))
            && (ticket >= 0x8000_0000_0000_0000 && Choose(n, up, excluded, ticket).Server? ==>
                  Choose(n, up, excluded, ticket) == Server(if |c| == 0 then 0 else c[0]))
  {
  }

  /** From half of its range on the counter reads as a negative number, and the pick crashes unless the number of
      servers it chooses among divides its distance to the wrap-around. */
  lemma PickCrashesIff(n: nat, up: nat -> bool, excluded: set<int>, ticket: uint64)
    requires n > 0
    ensures var m := |Candidates(n, up, excluded)|;
            && (Choose(n, up, excluded, ticket).Crash?
                <==> ticket >= TWO_63 && (TWO_64 - ticket) % (if m == 0 then n else m) != 0)
  {
  }

  /** With three connected servers the pick after 2^63 - 1 calls crashes; with one it never does. */
  lemma CrashAtHalfRange(up: nat -> bool)
    requires up(0) && up(1) && up(2)
    ensures Choose(3, up, {}, TWO_63).Crash?
    ensures forall ticket :: Choose(1, up, {}, ticket) == Server(0)
  {
    assert Candidates(0, up, {}) == [] && Candidates(1, up, {}) == [0];
    assert Candidates(2, up, {}) == [0, 1] && Candidates(3, up, {}) == [0, 1, 2];
  }

  // ---- balance ----

  /** How many of the `k` calls after counter value `start` reach server `s`. */
  function Selections(n: nat, up: nat -> bool, start: nat, k: nat, s: nat): nat
    requires start + k < TWO_63
  {
    if k == 0 then 0 else
      Selections(n, up, start, k - 1, s) + if Choose(n, up, {}, start + k) == Server(s) then 1 else 0
  }

  lemma QuotientStep(x: int, m: int)
    requires m > 0
    ensures (x + 1) / m == x / m + if (x + 1) % m == 0 then 1 else 0
  {
    var q, r := x / m, x % m;
    assert x == m * q + r;
    if r == m - 1 {
      assert x + 1 == m * (q + 1) + 0;
      QuotientUnique(x + 1, m, q + 1, 0);
    } else {
      QuotientUnique(x + 1, m, q, r + 1);
    }
  }

  lemma QuotientUnique(x: int, m: int, q: int, r: int)
    requires m > 0 && x == m * q + r && 0 <= r < m
    ensures x / m == q && x % m == r
  {
    assert m * (x / m) <= x < m * (x / m + 1);
    assert m * q <= x < m * (q + 1);
    MulCancel(x / m, q + 1, m);
    MulCancel(q, x / m + 1, m);
  }

  lemma ShiftedResidue(x: int, m: int, r: int)
    requires m > 0 && 0 <= r < m
    ensures x % m == r <==> (x - r) % m == 0
  {
    var q := x / m;
    if x % m == r {
      QuotientUnique(x - r, m, q, 0);
    }
    if (x - r) % m == 0 {
      QuotientUnique(x, m, (x - r) / m, r);
    }
  }

  lemma SelectedIff(n: nat, up: nat -> bool, excluded: set<int>, ticket: nat, pos: nat)
    requires ticket < TWO_63 && pos < |Candidates(n, up, excluded)|
    ensures var c := Candidates(n, up, excluded);
            Choose(n, up, excluded, ticket) == Server(c[pos]) <==> ticket % |c| == pos
  {
    assert n > 0;
    var c := Candidates(n, up, excluded);
    var p := ticket % |c|;
    if p < pos { assert c[p] < c[pos]; } else if p > pos { assert c[pos] < c[p]; }
  }

  /** Closed form: a server is reached once for every counter value of its residue. */
  lemma {:induction false} SelectionsCount(n: nat, up: nat -> bool, start: nat, k: nat, pos: nat)
    requires start + k < TWO_63 && pos < |Candidates(n, up, {})|
    ensures var c := Candidates(n, up, {});
            Selections(n, up, start, k, c[pos]) == (start + k - pos) / |c| - (start - pos) / |c|
  {
    if k > 0 {
      var c := Candidates(n, up, {});
      SelectionsCount(n, up, start, k - 1, pos);
      SelectedIff(n, up, {}, start + k, pos);
      ShiftedResidue(start + k, |c|, pos);
      QuotientStep(start + k - 1 - pos, |c|);
    }
  }

  lemma QuotientSpread(a: int, k: nat, m: int)
    requires m > 0
    ensures k / m <= (a + k) / m - a / m <= k / m + if k % m == 0 then 0 else 1
  {
    var q, r := a / m, a % m;
    var q', r' := k / m, k % m;
    assert a == m * q + r && k == m * q' + r';
    assert m * (q + q') == m * q + m * q';
    if r + r' < m {
      QuotientUnique(a + k, m, q + q', r + r');
    } else {
      assert m * (q + q' + 1) == m * (q + q') + m;
      QuotientUnique(a + k, m, q + q' + 1, r + r' - m);
    }
  }

  /** Over any `k` calls on one client, whoever makes them, each of the `m` connected servers is used `k / m` times,
      rounded down or up; the counter hands every call a value of its own. */
  lemma RoundRobinBalance(n: nat, up: nat -> bool, start: nat, k: nat, s: nat)
    requires start + k < TWO_63 && s < n && up(s)
    ensures var m := |Candidates(n, up, {})|;
            && m > 0
            && k / m <= Selections(n, up, start, k, s) <= k / m + if k % m == 0 then 0 else 1
  {
    var c := Candidates(n, up, {});
    assert s in c;
    var pos :| 0 <= pos < |c| && c[pos] == s;
    SelectionsCount(n, up, start, k, pos);
    QuotientSpread(start - pos, k, |c|);
  }

  /** How far ahead of `x` the next number with remainder `pos` is. */
  lemma NextWithResidue(x: nat, m: nat, pos: nat) returns (turn: nat)
    requires pos < m
    ensures turn < m && (x + turn) % m == pos
  {
    var q, r := x / m, x % m;
    assert x == m * q + r;
    if r <= pos {
      turn := pos - r;
      QuotientUnique(x + turn, m, q, pos);
    } else {
      turn := m + pos - r;
      assert m * (q + 1) == m * q + m;
      QuotientUnique(x + turn, m, q + 1, pos);
    }
  }

  /** Some call among any `m` in a row reaches a given connected server: the offset of the first one. */
  lemma SomeTurnReaches(n: nat, up: nat -> bool, start: nat, s: nat) returns (turn: nat)
    requires s < n && up(s) && start + n < TWO_63
    ensures turn < |Candidates(n, up, {})|
    ensures Choose(n, up, {}, start + 1 + turn) == Server(s)
  {
    var c := Candidates(n, up, {});
    assert s in c;
    var pos :| 0 <= pos < |c| && c[pos] == s;
    turn := NextWithResidue(start + 1, |c|, pos);
    SelectedIff(n, up, {}, start + 1 + turn, pos);
  }

  // ---- pinned clients ----

  /** What happens to a client and the clients pinned from it, numbered in order. */
  datatype Event = Pin | CallParent | CallPinned(c: nat)

  datatype Counters = Counters(parent: uint64, pinned: seq<uint64>)

  function Bumped(counter: uint64): uint64 {
    (counter + 1) % TWO_64
  }

  /** A pinned client starts from a copy of the parent's counter; a call bumps the counter of its own client only. */
  function Apply(s: Counters, e: Event): Counters {
    match e
    case Pin => s.(pinned := s.pinned + [s.parent])
    case CallParent => s.(parent := Bumped(s.parent))
    case CallPinned(c) => if c < |s.pinned| then s.(pinned := s.pinned[c := Bumped(s.pinned[c])]) else s
  }

  function After(s: Counters, es: seq<Event>): Counters {
    if |es| == 0 then s else Apply(After(s, es[..|es| - 1]), es[|es| - 1])
  }

  function Calls(es: seq<Event>, c: nat): nat {
    if |es| == 0 then 0 else Calls(es[..|es| - 1], c) + if es[|es| - 1] == CallPinned(c) then 1 else 0
  }

  /** Events that leave the parent alone, and in which only clients that exist are called. */
  predicate ParentRests(s: Counters, es: seq<Event>) {
    forall i :: 0 <= i < |es| ==>
      es[i] != CallParent && (es[i].CallPinned? ==> es[i].c < |After(s, es[..i]).pinned|)
  }

  /** The parent's counter has stayed, and every client pinned during `es` has counted its own calls only, from the
      same start. */
  ghost predicate CountedAlone(s: Counters, es: seq<Event>, s': Counters) {
    && s'.parent == s.parent && |s.pinned| <= |s'.pinned|
    && (forall c :: |s.pinned| <= c < |s'.pinned| ==> s'.pinned[c] == (s.parent + Calls(es, c)) % TWO_64)
    && (forall c :: c >= |s'.pinned| ==> Calls(es, c) == 0)
  }

  lemma CallsStep(es: seq<Event>, e: Event, c: nat)
    ensures Calls(es + [e], c) == Calls(es, c) + if e == CallPinned(c) then 1 else 0
  {
    assert (es + [e])[..|es|] == es;
  }

  lemma CountedStep(s: Counters, es: seq<Event>, s': Counters, e: Event)
    requires CountedAlone(s, es, s') && e != CallParent && (e.CallPinned? ==> e.c < |s'.pinned|)
    ensures CountedAlone(s, es + [e], Apply(s', e))
  {
    var after := Apply(s', e);
    forall c | |s.pinned| <= c < |after.pinned|
      ensures after.pinned[c] == (s.parent + Calls(es + [e], c)) % TWO_64
    {
      CallsStep(es, e, c);
      BumpAddsOne(s.parent + Calls(es, c));
    }
    forall c | c >= |after.pinned| ensures Calls(es + [e], c) == 0 {
      CallsStep(es, e, c);
    }
  }

  lemma BumpAddsOne(x: nat)
    ensures Bumped(x % TWO_64) == (x + 1) % TWO_64
  {
  }

  lemma PrefixRests(s: Counters, es: seq<Event>, n: nat)
    requires ParentRests(s, es) && n <= |es|
    ensures ParentRests(s, es[..n])
  {
    assert forall k :: 0 <= k < n ==> es[..n][..k] == es[..k];
  }

  lemma {:induction false} PinnedCountAlone(s: Counters, es: seq<Event>)
    requires ParentRests(s, es)
    ensures CountedAlone(s, es, After(s, es))
  {
    if |es| > 0 {
      var front, e := es[..|es| - 1], es[|es| - 1];
      PrefixRests(s, es, |es| - 1);
      PinnedCountAlone(s, front);
      assert e != CallParent && (e.CallPinned? ==> e.c < |After(s, front).pinned|);
      assert After(s, es) == Apply(After(s, front), e) && es == front + [e];
      CountedStep(s, front, After(s, front), e);
    }
  }

  /** Event `i` calls a client pinned during `es`. */
  predicate CallsPinned(s: Counters, es: seq<Event>, i: nat) {
    i < |es| && es[i].CallPinned? && |s.pinned| <= es[i].c < |After(s, es[..i]).pinned|
  }

  /** The server that such a call goes to. */
  function PinnedPick(n: nat, up: nat -> bool, s: Counters, es: seq<Event>, i: nat): Pick
    requires CallsPinned(s, es, i)
  {
    Choose(n, up, {}, Bumped(After(s, es[..i]).pinned[es[i].c]))
  }

  lemma PinnedTicket(n: nat, up: nat -> bool, s: Counters, es: seq<Event>, i: nat)
    requires ParentRests(s, es) && CallsPinned(s, es, i)
    ensures PinnedPick(n, up, s, es, i)
         == Choose(n, up, {}, Bumped((s.parent + Calls(es[..i], es[i].c)) % TWO_64))
  {
    PrefixRests(s, es, i);
    PinnedCountAlone(s, es[..i]);
  }

  /** While the parent rests, the `k`-th calls of all clients pinned meanwhile go to one and the same server, however
      the calls interleave; in particular all first calls do. */
  lemma PinnedClientsCallAlike(n: nat, up: nat -> bool, s: Counters, es: seq<Event>, i: nat, j: nat)
    requires ParentRests(s, es) && CallsPinned(s, es, i) && CallsPinned(s, es, j)
    requires Calls(es[..i], es[i].c) == Calls(es[..j], es[j].c)
    ensures PinnedPick(n, up, s, es, i) == PinnedPick(n, up, s, es, j)
  {
    PinnedTicket(n, up, s, es, i);
    PinnedTicket(n, up, s, es, j);
  }
}
