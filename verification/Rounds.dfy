/** Locating validation rounds on the masterchain: the outward search for the block where the election changes,
    the reconstruction of a round from two such searches, and the backward walk to the previous election. */
module Rounds {
  import opened Options
  import opened Numbers

  const MAX_BOUNDARY_SEARCH: nat := 20
  const MAX_BACKWARD_STEPS: nat := 1000

  /** Config param 34 at a block: the round's election id and the time at which the round ends. */
  datatype RoundConf = RoundConf(since: int, until: int)

  /** The chain as the service reads it, one configuration per block number. */
  type Config = uint32 -> RoundConf

  datatype Boundary = Boundary(beforeBlock: uint32, beforeId: int, afterBlock: uint32, afterId: int)

  datatype Failure = NoAnchor | ReadFailed | NotFound | Unfinished | BadStart

  /** Everything outside the chain that one search depends on: the block its time lookup lands on, whether the
      configuration can be read there, and, per step, whether the block lookup succeeds and the configuration can
      be read. Step 2i goes forward and step 2i + 1 backward in iteration i. */
  datatype Search = Search(anchor: Option<uint32>, anchorRead: bool, found: nat -> bool, read: nat -> bool)

  /** Block numbers are 32 bits wide and wrap around. */
  function Ahead(s: uint32, d: nat): uint32
    decreases d
  {
    if s + d < TWO_32 then s + d else Ahead(0, s + d - TWO_32)
  }

  function Behind(s: uint32, d: nat): uint32
    decreases d
  {
    if d <= s then s - d else Behind(TWO_32 - 1, d - s - 1)
  }

  /** How many of the first `i` lookups in one direction succeed. */
  function Hits(found: nat -> bool, direction: nat, i: nat): (h: nat)
    ensures h <= i
  {
    if i == 0 then 0 else Hits(found, direction, i - 1) + if found(2 * (i - 1) + direction) then 1 else 0
  }

  lemma HitsStep(found: nat -> bool, direction: nat, i: nat)
    ensures Hits(found, direction, i + 1) == Hits(found, direction, i) + if found(2 * i + direction) then 1 else 0
  {
  }

  /** The election is the same at `a` blocks after `s` and at as many of `b` blocks before it as the chain has. */
  predicate Quiet(conf: Config, s: uint32, a: nat, b: nat) {
    && (forall j :: 0 < j <= a ==> conf(Ahead(s, j)).since == conf(s).since)
    && (forall j :: 0 < j <= b && j <= s ==> conf(Behind(s, j)).since == conf(s).since)
  }

  function BoundaryAhead(conf: Config, s: uint32, d: nat): Boundary
    requires d > 0
  {
    Boundary(Ahead(s, d - 1), conf(s).since, Ahead(s, d), conf(Ahead(s, d)).since)
  }

  function BoundaryBehind(conf: Config, s: uint32, d: nat): Boundary
    requires 0 < d <= s
  {
    Boundary(Behind(s, d), conf(Behind(s, d)).since, Behind(s, d - 1), conf(s).since)
  }

  /** In iteration `i` a block lookup succeeds, but the block's configuration cannot be read. Once the cursor going
      backward (direction 1) has reached block 0 there is no lookup any more. */
  predicate Unreadable(q: Search, s: uint32, i: nat, direction: nat) {
    && q.found(2 * i + direction) && !q.read(2 * i + direction)
    && (direction == 0 || Hits(q.found, 1, i) < s)
  }

  /** Every configuration asked for in the first `i` iterations can be read. */
  predicate ReadBefore(q: Search, s: uint32, i: nat) {
    forall j :: 0 <= j < i ==> !Unreadable(q, s, j, 0) && !Unreadable(q, s, j, 1)
  }

  /** Iteration `i` finds the change ahead: its lookup is the `d`-th to succeed and all before it was quiet. */
  predicate FoundAhead(conf: Config, s: uint32, q: Search, i: nat, d: nat) {
    && ReadBefore(q, s, i) && q.found(2 * i) && q.read(2 * i)
    && d == Hits(q.found, 0, i) + 1
    && Quiet(conf, s, d - 1, Hits(q.found, 1, i))
    && conf(Ahead(s, d)).since != conf(s).since
  }

  /** Iteration `i` finds the change behind, after its forward step found nothing. */
  predicate FoundBehind(conf: Config, s: uint32, q: Search, i: nat, d: nat) {
    && ReadBefore(q, s, i) && !Unreadable(q, s, i, 0) && q.found(2 * i + 1) && q.read(2 * i + 1)
    && d == Hits(q.found, 1, i) + 1 <= s
    && Quiet(conf, s, Hits(q.found, 0, i + 1), d - 1)
    && conf(Behind(s, d)).since != conf(s).since
  }

  predicate FoundAt(conf: Config, s: uint32, q: Search, i: nat, d: nat, b: Boundary) {
    || (FoundAhead(conf, s, q, i, d) && b == BoundaryAhead(conf, s, d))
    || (FoundBehind(conf, s, q, i, d) && b == BoundaryBehind(conf, s, d))
  }

  /** Iteration `i` is the one in which a configuration cannot be read, and nothing was found before. */
  predicate FailsAt(conf: Config, s: uint32, q: Search, i: nat) {
    && ReadBefore(q, s, i)
    && (|| (Unreadable(q, s, i, 0) && Quiet(conf, s, Hits(q.found, 0, i), Hits(q.found, 1, i)))
        || (!Unreadable(q, s, i, 0) && Unreadable(q, s, i, 1)
            && Quiet(conf, s, Hits(q.found, 0, i + 1), Hits(q.found, 1, i))))
  }

  /** Exactly what a search returns. */
  ghost predicate SearchResult(conf: Config, q: Search, r: Result<Boundary, Failure>) {
    match r
    case Ok(b) =>
      && q.anchor.Some? && q.anchorRead
      && var s := q.anchor.value;
         exists i: nat, d: nat :: i < MAX_BOUNDARY_SEARCH && FoundAt(conf, s, q, i, d, b)
    case Err(NotFound) =>
      && q.anchor.Some? && q.anchorRead && ReadBefore(q, q.anchor.value, MAX_BOUNDARY_SEARCH)
      && Quiet(conf, q.anchor.value, Hits(q.found, 0, MAX_BOUNDARY_SEARCH), Hits(q.found, 1, MAX_BOUNDARY_SEARCH))
    case Err(NoAnchor) => q.anchor.None?
    case Err(ReadFailed) =>
      q.anchor.Some? && (!q.anchorRead ||
        exists i: nat :: i < MAX_BOUNDARY_SEARCH && FailsAt(conf, q.anchor.value, q, i))
    case Err(_) => false
  }

  lemma {:induction false} AheadStep(s: uint32, a: nat)
    ensures Ahead(Ahead(s, a), 1) == Ahead(s, a + 1)
    decreases a
  {
    if s + a >= TWO_32 { AheadStep(0, s + a - TWO_32); }
  }

  lemma {:induction false} BehindStep(s: uint32, a: nat)
    ensures Behind(Behind(s, a), 1) == Behind(s, a + 1)
    decreases a
  {
    if a > s { BehindStep(TWO_32 - 1, a - s - 1); }
  }

  lemma QuietAhead(conf: Config, s: uint32, a: nat, b: nat)
    requires Quiet(conf, s, a, b) && conf(Ahead(s, a + 1)).since == conf(s).since
    ensures Quiet(conf, s, a + 1, b)
  {
  }

  lemma QuietBehind(conf: Config, s: uint32, a: nat, b: nat)
    requires Quiet(conf, s, a, b) && (b < s ==> conf(Behind(s, b + 1)).since == conf(s).since)
    ensures Quiet(conf, s, a, b + 1)
  {
  }

  lemma Report(conf: Config, s: uint32, q: Search, i: nat, d: nat, b: Boundary)
    requires q.anchor == Some(s) && q.anchorRead && i < MAX_BOUNDARY_SEARCH
    requires FoundAt(conf, s, q, i, d, b)
    ensures SearchResult(conf, q, Ok(b))
  {
  }

  lemma ReportFailure(conf: Config, s: uint32, q: Search, i: nat)
    requires q.anchor == Some(s) && i < MAX_BOUNDARY_SEARCH && FailsAt(conf, s, q, i)
    ensures SearchResult(conf, q, Err(ReadFailed))
  {
  }

  lemma ReportNotFound(conf: Config, s: uint32, q: Search)
    requires q.anchor == Some(s) && q.anchorRead && ReadBefore(q, s, MAX_BOUNDARY_SEARCH)
    requires Quiet(conf, s, Hits(q.found, 0, MAX_BOUNDARY_SEARCH), Hits(q.found, 1, MAX_BOUNDARY_SEARCH))
    ensures SearchResult(conf, q, Err(NotFound))
  {
  }

  /** Where `b` lookups backward that succeeded have led: block 0 is not passed. */
  function BackCursor(s: uint32, b: nat): uint32 {
    if b <= s then s - b else 0
  }

  /** The state of the walk before iteration `i`. */
  predicate Walked(conf: Config, s: uint32, q: Search, i: nat, fwd: uint32, bwd: uint32) {
    && ReadBefore(q, s, i)
    && fwd == Ahead(s, Hits(q.found, 0, i)) && bwd == BackCursor(s, Hits(q.found, 1, i))
    && Quiet(conf, s, Hits(q.found, 0, i), Hits(q.found, 1, i))
  }

  /** The state within iteration `i`, after its forward step. */
  predicate WalkedAhead(conf: Config, s: uint32, q: Search, i: nat, fwd: uint32, bwd: uint32) {
    && ReadBefore(q, s, i) && !Unreadable(q, s, i, 0)
    && fwd == Ahead(s, Hits(q.found, 0, i + 1)) && bwd == BackCursor(s, Hits(q.found, 1, i))
    && Quiet(conf, s, Hits(q.found, 0, i + 1), Hits(q.found, 1, i))
  }

  /** One step forward: either ends the search or moves the cursor over a block of the same election. */
  method StepForward(conf: Config, s: uint32, q: Search, i: nat, fwd: uint32, ghost bwd: uint32)
    returns (stop: Option<Result<Boundary, Failure>>, cursor: uint32)
    requires q.anchor == Some(s) && q.anchorRead && i < MAX_BOUNDARY_SEARCH
    requires Walked(conf, s, q, i, fwd, bwd)
    ensures stop.Some? ==> SearchResult(conf, q, stop.value)
    ensures stop.None? ==> WalkedAhead(conf, s, q, i, cursor, bwd)
  {
    HitsStep(q.found, 0, i);
    if !q.found(2 * i) { return None, fwd; }
    if !q.read(2 * i) {
      ReportFailure(conf, s, q, i);
      return Some(Err(ReadFailed)), fwd;
    }
    ghost var a := Hits(q.found, 0, i);
    var next := Ahead(fwd, 1);
    AheadStep(s, a);
    if conf(next).since != conf(s).since {
      Report(conf, s, q, i, a + 1, BoundaryAhead(conf, s, a + 1));
      return Some(Ok(Boundary(fwd, conf(s).since, next, conf(next).since))), fwd;
    }
    QuietAhead(conf, s, a, Hits(q.found, 1, i));
    return None, next;
  }

  /** One step backward, unless the cursor is at block 0 already. */
  method StepBackward(conf: Config, s: uint32, q: Search, i: nat, ghost fwd: uint32, bwd: uint32)
    returns (stop: Option<Result<Boundary, Failure>>, cursor: uint32)
    requires q.anchor == Some(s) && q.anchorRead && i < MAX_BOUNDARY_SEARCH
    requires WalkedAhead(conf, s, q, i, fwd, bwd)
    ensures stop.Some? ==> SearchResult(conf, q, stop.value)
    ensures stop.None? ==> Walked(conf, s, q, i + 1, fwd, cursor)
  {
    if bwd == 0 || !q.found(2 * i + 1) {
      StayedBehind(conf, s, q, i, fwd, bwd);
      return None, bwd;
    }
    if !q.read(2 * i + 1) {
      ReportFailure(conf, s, q, i);
      return Some(Err(ReadFailed)), bwd;
    }
    ghost var b := Hits(q.found, 1, i);
    var prev := bwd - 1;
    if conf(prev).since != conf(s).since {
      Report(conf, s, q, i, b + 1, BoundaryBehind(conf, s, b + 1));
      return Some(Ok(Boundary(prev, conf(prev).since, bwd, conf(s).since))), bwd;
    }
    MovedBehind(conf, s, q, i, fwd, bwd);
    return None, prev;
  }

  lemma StayedBehind(conf: Config, s: uint32, q: Search, i: nat, fwd: uint32, bwd: uint32)
    requires WalkedAhead(conf, s, q, i, fwd, bwd) && (bwd == 0 || !q.found(2 * i + 1))
    ensures Walked(conf, s, q, i + 1, fwd, bwd)
  {
    HitsStep(q.found, 1, i);
    if q.found(2 * i + 1) { QuietBehind(conf, s, Hits(q.found, 0, i + 1), Hits(q.found, 1, i)); }
  }

  lemma MovedBehind(conf: Config, s: uint32, q: Search, i: nat, fwd: uint32, bwd: uint32)
    requires WalkedAhead(conf, s, q, i, fwd, bwd) && bwd > 0 && q.found(2 * i + 1) && q.read(2 * i + 1)
    requires conf(bwd - 1).since == conf(s).since
    ensures Walked(conf, s, q, i + 1, fwd, bwd - 1)
  {
    HitsStep(q.found, 1, i);
    QuietBehind(conf, s, Hits(q.found, 0, i + 1), Hits(q.found, 1, i));
  }

  /** Walks outward from the anchor, one step forward and one step backward in turn. A failed block lookup is
      skipped and made again in the next iteration; a failed configuration read ends the search. */
  method FindElectionBoundary(conf: Config, q: Search) returns (r: Result<Boundary, Failure>)
    ensures SearchResult(conf, q, r)
  {
    if q.anchor.None? { return Err(NoAnchor); }
    if !q.anchorRead { return Err(ReadFailed); }
    var s := q.anchor.value;
    var fwd, bwd, stop := s, s, None;
    for i := 0 to MAX_BOUNDARY_SEARCH
      invariant Walked(conf, s, q, i, fwd, bwd)
    {
      stop, fwd := StepForward(conf, s, q, i, fwd, bwd);
      if stop.Some? { return stop.value; }
      stop, bwd := StepBackward(conf, s, q, i, fwd, bwd);
      if stop.Some? { return stop.value; }
    }
    ReportNotFound(conf, s, q);
    return Err(NotFound);
  }

  // ---- what a search result means ----

  /** The nearest change ahead of `s` is at block distance `d`. */
  predicate ChangeAhead(conf: Config, s: uint32, d: nat) {
    && d > 0
    && conf(Ahead(s, d)).since != conf(s).since
    && forall j :: 0 < j < d ==> conf(Ahead(s, j)).since == conf(s).since
  }

  predicate ChangeBehind(conf: Config, s: uint32, d: nat) {
    && 0 < d <= s
    && conf(Behind(s, d)).since != conf(s).since
    && forall j :: 0 < j < d ==> conf(Behind(s, j)).since == conf(s).since
  }

  /** Both the chosen block and every configuration the search asks for can be read. */
  ghost predicate AllRead(q: Search) {
    q.anchorRead && forall t :: q.read(t)
  }

  ghost predicate NoneMissing(q: Search) {
    forall t :: q.found(t)
  }

  lemma {:induction false} HitsMonotone(found: nat -> bool, direction: nat, i: nat, j: nat)
    requires i <= j
    ensures Hits(found, direction, i) <= Hits(found, direction, j)
  {
    if i < j { HitsMonotone(found, direction, i, j - 1); }
  }

  lemma {:induction false} HitsWithoutFailure(q: Search, direction: nat, i: nat)
    requires NoneMissing(q)
    ensures Hits(q.found, direction, i) == i
  {
    if i > 0 { HitsWithoutFailure(q, direction, i - 1); }
  }

  lemma HitsReach(found: nat -> bool, direction: nat, i: nat)
    requires i < MAX_BOUNDARY_SEARCH && found(2 * i + direction)
    ensures Hits(found, direction, i) < Hits(found, direction, MAX_BOUNDARY_SEARCH)
  {
    HitsStep(found, direction, i);
    HitsMonotone(found, direction, i + 1, MAX_BOUNDARY_SEARCH);
  }

  lemma QuietThenChangeAhead(conf: Config, s: uint32, d: nat, b: nat)
    requires d > 0 && Quiet(conf, s, d - 1, b) && conf(Ahead(s, d)).since != conf(s).since
    ensures ChangeAhead(conf, s, d)
  {
  }

  lemma QuietThenChangeBehind(conf: Config, s: uint32, a: nat, d: nat)
    requires 0 < d <= s && Quiet(conf, s, a, d - 1) && conf(Behind(s, d)).since != conf(s).since
    ensures ChangeBehind(conf, s, d)
  {
  }

  lemma FoundAheadIsChange(conf: Config, s: uint32, q: Search, i: nat, d: nat)
    requires i < MAX_BOUNDARY_SEARCH && FoundAhead(conf, s, q, i, d)
    ensures ChangeAhead(conf, s, d) && d <= i + 1 && d <= Hits(q.found, 0, MAX_BOUNDARY_SEARCH)
  {
    QuietThenChangeAhead(conf, s, d, Hits(q.found, 1, i));
    HitsReach(q.found, 0, i);
  }

  lemma FoundBehindIsChange(conf: Config, s: uint32, q: Search, i: nat, d: nat)
    requires i < MAX_BOUNDARY_SEARCH && FoundBehind(conf, s, q, i, d)
    ensures ChangeBehind(conf, s, d) && d <= i + 1 && d <= Hits(q.found, 1, MAX_BOUNDARY_SEARCH)
  {
    QuietThenChangeBehind(conf, s, Hits(q.found, 0, i + 1), d);
    HitsReach(q.found, 1, i);
  }

  /** What an iteration finds is the nearest change on its side, and in reach. */
  lemma FoundIsChange(conf: Config, s: uint32, q: Search, i: nat, d: nat, b: Boundary)
    requires i < MAX_BOUNDARY_SEARCH && FoundAt(conf, s, q, i, d, b)
    ensures d <= i + 1
    ensures || (ChangeAhead(conf, s, d) && b == BoundaryAhead(conf, s, d)
                && d <= Hits(q.found, 0, MAX_BOUNDARY_SEARCH))
            || (ChangeBehind(conf, s, d) && b == BoundaryBehind(conf, s, d)
                && d <= Hits(q.found, 1, MAX_BOUNDARY_SEARCH))
  {
    if FoundAhead(conf, s, q, i, d) && b == BoundaryAhead(conf, s, d) {
      FoundAheadIsChange(conf, s, q, i, d);
    } else {
      FoundBehindIsChange(conf, s, q, i, d);
    }
  }

  /** Iteration `i` ends the search with `r`. */
  ghost predicate EndsAt(conf: Config, s: uint32, q: Search, i: nat, r: Result<Boundary, Failure>) {
    match r
    case Ok(b) => exists d: nat :: FoundAt(conf, s, q, i, d, b)
    case Err(f) => f == ReadFailed && FailsAt(conf, s, q, i)
  }

  /** No iteration before `i` has ended the search. */
  predicate Open(conf: Config, s: uint32, q: Search, i: nat) {
    ReadBefore(q, s, i) && Quiet(conf, s, Hits(q.found, 0, i), Hits(q.found, 1, i))
  }

  lemma EndsWhileOpen(conf: Config, s: uint32, q: Search, i: nat, r: Result<Boundary, Failure>)
    requires EndsAt(conf, s, q, i, r)
    ensures Open(conf, s, q, i)
  {
    HitsStep(q.found, 0, i);
  }

  lemma EndCloses(conf: Config, s: uint32, q: Search, i: nat, r: Result<Boundary, Failure>, j: nat)
    requires EndsAt(conf, s, q, i, r) && i < j
    ensures !Open(conf, s, q, j)
  {
    HitsStep(q.found, 0, i);
    HitsStep(q.found, 1, i);
    HitsMonotone(q.found, 0, i + 1, j);
    HitsMonotone(q.found, 1, i + 1, j);
  }

  lemma EndDeterminate(conf: Config, s: uint32, q: Search, i: nat, r: Result<Boundary, Failure>,
                        r': Result<Boundary, Failure>)
    requires EndsAt(conf, s, q, i, r) && EndsAt(conf, s, q, i, r')
    ensures r == r'
  {
    HitsStep(q.found, 0, i);
  }

  /** How a search ended: before its first step, in iteration `i`, or after the last. */
  lemma EndOf(conf: Config, q: Search, r: Result<Boundary, Failure>) returns (i: nat)
    requires SearchResult(conf, q, r) && q.anchor.Some? && q.anchorRead
    ensures if i < MAX_BOUNDARY_SEARCH then EndsAt(conf, q.anchor.value, q, i, r)
            else i == MAX_BOUNDARY_SEARCH && r == Err(NotFound) && Open(conf, q.anchor.value, q, i)
  {
    var s := q.anchor.value;
    match r {
      case Ok(b) =>
        var k: nat, d: nat :| k < MAX_BOUNDARY_SEARCH && FoundAt(conf, s, q, k, d, b);
        i := k;
      case Err(f) =>
        i := MAX_BOUNDARY_SEARCH;
        if f == ReadFailed {
          i :| i < MAX_BOUNDARY_SEARCH && FailsAt(conf, s, q, i);
        }
    }
  }

  /** The description of what a search returns leaves nothing open. */
  lemma SearchDeterminate(conf: Config, q: Search, r: Result<Boundary, Failure>, r': Result<Boundary, Failure>)
    requires SearchResult(conf, q, r) && SearchResult(conf, q, r')
    ensures r == r'
  {
    if q.anchor.Some? && q.anchorRead {
      var s := q.anchor.value;
      var i := EndOf(conf, q, r);
      var j := EndOf(conf, q, r');
      if i < MAX_BOUNDARY_SEARCH { SameEnd(conf, s, q, i, r, j, r'); }
      if j < MAX_BOUNDARY_SEARCH { SameEnd(conf, s, q, j, r', i, r); }
    }
  }

  lemma SameEnd(conf: Config, s: uint32, q: Search, i: nat, r: Result<Boundary, Failure>,
                j: nat, r': Result<Boundary, Failure>)
    requires i < MAX_BOUNDARY_SEARCH && EndsAt(conf, s, q, i, r)
    requires if j < MAX_BOUNDARY_SEARCH then EndsAt(conf, s, q, j, r') else Open(conf, s, q, j)
    ensures i >= j
    ensures i == j ==> r == r'
  {
    if j < MAX_BOUNDARY_SEARCH { EndsWhileOpen(conf, s, q, j, r'); }
    if i < j { EndCloses(conf, s, q, i, r, j); }
    if i == j { EndDeterminate(conf, s, q, i, r, r'); }
  }

  /** A search that cannot start: the time lookup fails, or the configuration where it lands cannot be read. */
  lemma SearchWithoutStart(conf: Config, q: Search, r: Result<Boundary, Failure>)
    requires SearchResult(conf, q, r)
    ensures r == Err(NoAnchor) <==> q.anchor.None?
    ensures q.anchor.Some? && !q.anchorRead ==> r == Err(ReadFailed)
  {
  }

  /** A failed read of a configuration ends a search, unlike a failed lookup of a block: far from any change, and from
      block 0, a search fails by it exactly when some configuration it asks for cannot be read. */
  lemma FailedReadEndsSearch(conf: Config, q: Search, r: Result<Boundary, Failure>)
    requires SearchResult(conf, q, r) && q.anchor.Some? && q.anchorRead && 20 <= q.anchor.value < TWO_32 - 20
    requires forall b: uint32 :: q.anchor.value - 20 <= b <= q.anchor.value + 20 ==>
               conf(b).since == conf(q.anchor.value).since
    ensures r == if exists t: nat :: t < 40 && q.found(t) && !q.read(t) then Err(ReadFailed) else Err(NotFound)
  {
    var s := q.anchor.value;
    if r.Ok? {
      var i: nat, d: nat :| i < MAX_BOUNDARY_SEARCH && FoundAt(conf, s, q, i, d, r.value);
      FoundIsChange(conf, s, q, i, d, r.value);
      assert false;
    }
    var i := EndOf(conf, q, r);
    if t: nat :| t < 40 && q.found(t) && !q.read(t) {
      assert t == 2 * (t / 2) + t % 2;
      assert Unreadable(q, s, t / 2, t % 2);
    }
    if i < MAX_BOUNDARY_SEARCH {
      assert Unreadable(q, s, i, 0) || Unreadable(q, s, i, 1);
      var t: nat := if Unreadable(q, s, i, 0) then 2 * i else 2 * i + 1;
      assert q.found(t) && !q.read(t);
    }
  }

  lemma ChangesUnique(conf: Config, s: uint32, d: nat, e: nat)
    ensures ChangeAhead(conf, s, d) && ChangeAhead(conf, s, e) ==> d == e
    ensures ChangeBehind(conf, s, d) && ChangeBehind(conf, s, e) ==> d == e
  {
  }

  /** A returned boundary is two adjacent blocks with different elections, and it is the first change on its side:
      every block walked over on the way belongs to the election of the starting block. */
  lemma BoundarySound(conf: Config, q: Search, b: Boundary)
    requires SearchResult(conf, q, Ok(b))
    ensures b.afterBlock == Ahead(b.beforeBlock, 1)
    ensures b.beforeId == conf(b.beforeBlock).since && b.afterId == conf(b.afterBlock).since
    ensures b.beforeId != b.afterId
    ensures exists d: nat :: 0 < d <= MAX_BOUNDARY_SEARCH &&
              ((ChangeAhead(conf, q.anchor.value, d) && b == BoundaryAhead(conf, q.anchor.value, d))
               || (ChangeBehind(conf, q.anchor.value, d) && b == BoundaryBehind(conf, q.anchor.value, d)))
  {
    var s := q.anchor.value;
    var i: nat, d: nat :| i < MAX_BOUNDARY_SEARCH && FoundAt(conf, s, q, i, d, b);
    FoundIsChange(conf, s, q, i, d, b);
    AheadStep(s, d - 1);
  }

  /** The search can get as far as a change on one of the two sides. */
  ghost predicate ChangeInReach(conf: Config, s: uint32, found: nat -> bool) {
    || (exists d: nat :: ChangeAhead(conf, s, d) && d <= Hits(found, 0, MAX_BOUNDARY_SEARCH))
    || (exists d: nat :: ChangeBehind(conf, s, d) && d <= Hits(found, 1, MAX_BOUNDARY_SEARCH))
  }

  /** When every configuration can be read, a search succeeds exactly when on some side the nearest change is no
      further than the number of lookups that succeed there. */
  lemma SearchSucceedsIff(conf: Config, q: Search, r: Result<Boundary, Failure>)
    requires SearchResult(conf, q, r) && q.anchor.Some? && AllRead(q)
    ensures r.Ok? <==> ChangeInReach(conf, q.anchor.value, q.found)
  {
    var s := q.anchor.value;
    if r.Ok? {
      var i: nat, d: nat :| i < MAX_BOUNDARY_SEARCH && FoundAt(conf, s, q, i, d, r.value);
      FoundIsChange(conf, s, q, i, d, r.value);
    }
  }

  /** With no failed lookup the boundary found is the nearest one, and of two equally near the one ahead. */
  lemma SearchNearest(conf: Config, q: Search, r: Result<Boundary, Failure>)
    requires SearchResult(conf, q, r) && q.anchor.Some? && AllRead(q) && NoneMissing(q)
    ensures var s := q.anchor.value;
            && (r.Err? <==> forall d :: 0 < d <= MAX_BOUNDARY_SEARCH ==>
                              !ChangeAhead(conf, s, d) && !ChangeBehind(conf, s, d))
            && (forall d: nat, e: nat :: r.Ok? && ChangeAhead(conf, s, d) && ChangeBehind(conf, s, e) ==>
                              r.value == if d <= e then BoundaryAhead(conf, s, d) else BoundaryBehind(conf, s, e))
  {
    SearchSucceedsIff(conf, q, r);
    HitsWithoutFailure(q, 0, MAX_BOUNDARY_SEARCH);
    HitsWithoutFailure(q, 1, MAX_BOUNDARY_SEARCH);
    var s := q.anchor.value;
    if r.Ok? {
      var i: nat, d: nat :| i < MAX_BOUNDARY_SEARCH && FoundAt(conf, s, q, i, d, r.value);
      HitsWithoutFailure(q, 0, i);
      HitsWithoutFailure(q, 1, i);
      HitsWithoutFailure(q, 0, i + 1);
      FoundIsChange(conf, s, q, i, d, r.value);
    }
  }

  predicate NoneAheadWithin(conf: Config, s: uint32, n: nat) {
    forall e: nat :: e <= n ==> !ChangeAhead(conf, s, e)
  }

  predicate NoneBehindWithin(conf: Config, s: uint32, n: nat) {
    forall e: nat :: e <= n ==> !ChangeBehind(conf, s, e)
  }

  /** Failed lookups only shorten the reach: a change at distance `d` on one side, with none in reach on the other,
      is found exactly when `d` plus the number of failed lookups on its side is at most twenty. */
  lemma SoleChangeAhead(conf: Config, q: Search, r: Result<Boundary, Failure>, d: nat)
    requires SearchResult(conf, q, r) && q.anchor.Some? && AllRead(q)
    requires ChangeAhead(conf, q.anchor.value, d)
    requires NoneBehindWithin(conf, q.anchor.value, Hits(q.found, 1, MAX_BOUNDARY_SEARCH))
    ensures var failed := MAX_BOUNDARY_SEARCH - Hits(q.found, 0, MAX_BOUNDARY_SEARCH);
            r == (if d + failed <= MAX_BOUNDARY_SEARCH then Ok(BoundaryAhead(conf, q.anchor.value, d))
                  else Err(NotFound))
  {
    SearchSucceedsIff(conf, q, r);
    if r.Ok? {
      var s := q.anchor.value;
      var i: nat, d': nat :| i < MAX_BOUNDARY_SEARCH && FoundAt(conf, s, q, i, d', r.value);
      FoundIsChange(conf, s, q, i, d', r.value);
      ChangesUnique(conf, s, d, d');
    }
  }

  lemma SoleChangeBehind(conf: Config, q: Search, r: Result<Boundary, Failure>, d: nat)
    requires SearchResult(conf, q, r) && q.anchor.Some? && AllRead(q)
    requires ChangeBehind(conf, q.anchor.value, d)
    requires NoneAheadWithin(conf, q.anchor.value, Hits(q.found, 0, MAX_BOUNDARY_SEARCH))
    ensures var failed := MAX_BOUNDARY_SEARCH - Hits(q.found, 1, MAX_BOUNDARY_SEARCH);
            r == (if d + failed <= MAX_BOUNDARY_SEARCH then Ok(BoundaryBehind(conf, q.anchor.value, d))
                  else Err(NotFound))
  {
    SearchSucceedsIff(conf, q, r);
    if r.Ok? {
      var s := q.anchor.value;
      var i: nat, d': nat :| i < MAX_BOUNDARY_SEARCH && FoundAt(conf, s, q, i, d', r.value);
      FoundIsChange(conf, s, q, i, d', r.value);
      ChangesUnique(conf, s, d, d');
    }
  }

  // ---- rounds ----

  /** A resolved round; `nextBlock` is the first block of the round after it. */
  datatype Round = Round(electionId: int, since: int, until: int, startBlock: uint32, endBlock: uint32,
                         prevId: int, nextId: int, nextBlock: uint32)

  /** The block a query resolves to, whether its configuration can be read, the current time, where time lookups
      land, and the surroundings of the two boundary searches. */
  datatype Query = Query(anchor: Option<uint32>, anchorRead: bool, now: int,
                         landing: int -> Option<uint32>, startWalk: Search, endWalk: Search)

  function StartSearch(conf: Config, q: Query): Search
    requires q.anchor.Some?
  {
    q.startWalk.(anchor := q.landing(conf(q.anchor.value).since))
  }

  function EndSearch(conf: Config, q: Query): Search
    requires q.anchor.Some?
  {
    q.endWalk.(anchor := q.landing(conf(q.anchor.value).until))
  }

  function RoundBetween(c: RoundConf, first: Boundary, last: Boundary): Round {
    Round(first.afterId, c.since, c.until, first.afterBlock, last.beforeBlock,
          first.beforeId, last.afterId, last.afterBlock)
  }

  ghost predicate RoundResult(conf: Config, q: Query, r: Result<Round, Failure>) {
    if q.anchor.None? then r == Err(NoAnchor)
    else if !q.anchorRead then r == Err(ReadFailed)
    else
      var c := conf(q.anchor.value);
      if c.until > q.now then r == Err(Unfinished)
      else
        || (r.Err? && SearchResult(conf, StartSearch(conf, q), Err(r.error)))
        || exists first :: SearchResult(conf, StartSearch(conf, q), Ok(first)) &&
             (|| (r.Err? && SearchResult(conf, EndSearch(conf, q), Err(r.error)))
              || (r.Ok? && exists last ::
                    SearchResult(conf, EndSearch(conf, q), Ok(last)) && r.value == RoundBetween(c, first, last)))
  }

  /** Reads the anchor's round times and searches the boundary near each of them. */
  method ResolveRound(conf: Config, q: Query) returns (r: Result<Round, Failure>)
    ensures RoundResult(conf, q, r)
  {
    if q.anchor.None? { return Err(NoAnchor); }
    if !q.anchorRead { return Err(ReadFailed); }
    var c := conf(q.anchor.value);
    if c.until > q.now { return Err(Unfinished); }
    var first := FindElectionBoundary(conf, StartSearch(conf, q));
    if first.Err? { return Err(first.error); }
    var last := FindElectionBoundary(conf, EndSearch(conf, q));
    if last.Err? { return Err(last.error); }
    return Ok(RoundBetween(c, first.value, last.value));
  }

  /** A query is refused as unfinished exactly when its block was found and read and its round ends in the future. */
  lemma UnfinishedIff(conf: Config, q: Query, r: Result<Round, Failure>)
    requires RoundResult(conf, q, r)
    ensures r == Err(Unfinished) <==> q.anchor.Some? && q.anchorRead && conf(q.anchor.value).until > q.now
    ensures q.anchor.None? ==> r == Err(NoAnchor)
    ensures q.anchor.Some? && !q.anchorRead ==> r == Err(ReadFailed)
  {
  }

  /** Rounds in order: round k has id `ids[k]` and the blocks from `starts[k]` up to `starts[k + 1]`. */
  datatype Chain = Chain(starts: seq<int>, ids: seq<int>)

  /** The rounds tile the chain without gaps, each has at least forty blocks, and each ends when the next begins. */
  ghost predicate Tiles(ch: Chain, conf: Config) {
    && |ch.starts| == |ch.ids| + 1
    && 0 <= ch.starts[0]
    && ch.starts[|ch.ids|] <= TWO_32
    && (forall k :: 0 <= k < |ch.ids| ==> ch.starts[k] + 40 <= ch.starts[k + 1])
    && (forall j, k :: 0 <= j < k <= |ch.ids| ==> ch.starts[j] < ch.starts[k])
    && (forall j, k :: 0 <= j < k < |ch.ids| ==> ch.ids[j] < ch.ids[k])
    && (forall k, b: uint32 :: 0 <= k < |ch.ids| && ch.starts[k] <= b < ch.starts[k + 1] ==>
          conf(b).since == ch.ids[k] && (k + 1 < |ch.ids| ==> conf(b).until == ch.ids[k + 1]))
  }

  /** A time lookup for round `k` lands close to the round's first block. */
  predicate NearSwitch(ch: Chain, k: nat, p: uint32)
    requires k < |ch.starts|
  {
    ch.starts[k] - 20 <= p <= ch.starts[k] + 19
  }

  /** How many blocks from `p` the switch to round `k` is, and on which side: forward is 0, backward 1. */
  function SwitchDistance(ch: Chain, k: nat, p: uint32): (d: int)
    requires k < |ch.starts|
  {
    if p < ch.starts[k] then ch.starts[k] - p else p - ch.starts[k] + 1
  }

  function SwitchSide(ch: Chain, k: nat, p: uint32): nat
    requires k < |ch.starts|
  {
    if p < ch.starts[k] then 0 else 1
  }

  /** Enough lookups succeed on the side where the switch to round `k` lies. */
  predicate SwitchInReach(ch: Chain, k: nat, p: uint32, found: nat -> bool)
    requires k < |ch.starts|
  {
    SwitchDistance(ch, k, p) <= Hits(found, SwitchSide(ch, k, p), MAX_BOUNDARY_SEARCH)
  }

  lemma InRound(ch: Chain, conf: Config, k: nat, b: int)
    requires Tiles(ch, conf) && k < |ch.ids| && ch.starts[k] <= b < ch.starts[k + 1]
    ensures 0 <= b < TWO_32 && conf(b).since == ch.ids[k]
  {
    assert ch.starts[k + 1] <= ch.starts[|ch.ids|];
    assert ch.starts[0] <= ch.starts[k];
  }

  /** Seen from just before a switch, the switch is the nearest change ahead and there is none close behind. */
  lemma SwitchAhead(ch: Chain, conf: Config, k: nat, s: uint32)
    requires Tiles(ch, conf) && 0 < k < |ch.ids| && ch.starts[k] - 20 <= s < ch.starts[k]
    ensures ChangeAhead(conf, s, ch.starts[k] - s)
    ensures BoundaryAhead(conf, s, ch.starts[k] - s)
            == Boundary(ch.starts[k] - 1, ch.ids[k - 1], ch.starts[k], ch.ids[k])
    ensures forall n: nat :: n <= 20 ==> NoneBehindWithin(conf, s, n)
  {
    forall j: nat | j < ch.starts[k] - s ensures Ahead(s, j) == s + j && conf(Ahead(s, j)).since == ch.ids[k - 1] {
      InRound(ch, conf, k - 1, s + j);
    }
    InRound(ch, conf, k, ch.starts[k]);
    forall j: nat | j <= 20 ensures j <= s && conf(Behind(s, j)).since == ch.ids[k - 1] {
      InRound(ch, conf, k - 1, s - j);
    }
    assert conf(s).since == ch.ids[k - 1] by { InRound(ch, conf, k - 1, s); }
  }

  lemma SwitchBehind(ch: Chain, conf: Config, k: nat, s: uint32)
    requires Tiles(ch, conf) && 0 < k < |ch.ids| && ch.starts[k] <= s <= ch.starts[k] + 19
    ensures ChangeBehind(conf, s, s - ch.starts[k] + 1)
    ensures BoundaryBehind(conf, s, s - ch.starts[k] + 1)
            == Boundary(ch.starts[k] - 1, ch.ids[k - 1], ch.starts[k], ch.ids[k])
    ensures forall n: nat :: n <= 20 ==> NoneAheadWithin(conf, s, n)
  {
    forall j: nat | j <= s - ch.starts[k] ensures Behind(s, j) == s - j && conf(Behind(s, j)).since == ch.ids[k] {
      InRound(ch, conf, k, s - j);
    }
    InRound(ch, conf, k - 1, ch.starts[k] - 1);
    forall j: nat | j <= 20 ensures conf(Ahead(s, j)).since == ch.ids[k] {
      InRound(ch, conf, k, s + j);
    }
    assert conf(s).since == ch.ids[k] by { InRound(ch, conf, k, s); }
  }

  /** The last block before round `k` and its first, with their elections. */
  function SwitchTo(ch: Chain, k: nat): Boundary
    requires 0 < k < |ch.ids| < |ch.starts| && 0 < ch.starts[k] < TWO_32
  {
    Boundary(ch.starts[k] - 1, ch.ids[k - 1], ch.starts[k], ch.ids[k])
  }

  /** What a search near the switch to round `k` yields. */
  function SwitchOutcome(ch: Chain, k: nat, p: uint32, found: nat -> bool): Result<Boundary, Failure>
    requires 0 < k < |ch.ids| < |ch.starts| && 0 < ch.starts[k] < TWO_32
  {
    if SwitchInReach(ch, k, p, found) then Ok(SwitchTo(ch, k)) else Err(NotFound)
  }

  /** Boundary `b` is the nearest change on one side of `s`, and none is close on the other. */
  ghost predicate OnlyChange(conf: Config, s: uint32, side: nat, d: int, b: Boundary) {
    && d > 0
    && if side == 0 then ChangeAhead(conf, s, d) && b == BoundaryAhead(conf, s, d) && NoneBehindWithin(conf, s, 20)
       else side == 1 && ChangeBehind(conf, s, d) && b == BoundaryBehind(conf, s, d) && NoneAheadWithin(conf, s, 20)
  }

  lemma OnlyChangeOutcome(conf: Config, q: Search, r: Result<Boundary, Failure>, side: nat, d: int, b: Boundary)
    requires SearchResult(conf, q, r) && q.anchor.Some? && AllRead(q)
    requires OnlyChange(conf, q.anchor.value, side, d, b)
    ensures r == if d <= Hits(q.found, side, MAX_BOUNDARY_SEARCH) then Ok(b) else Err(NotFound)
  {
    if side == 0 {
      SoleChangeAhead(conf, q, r, d);
    } else {
      SoleChangeBehind(conf, q, r, d);
    }
  }

  lemma SwitchIsOnlyChange(ch: Chain, conf: Config, k: nat, s: uint32)
    requires Tiles(ch, conf) && 0 < k < |ch.ids| && NearSwitch(ch, k, s)
    ensures 0 < ch.starts[k] < TWO_32
    ensures OnlyChange(conf, s, SwitchSide(ch, k, s), SwitchDistance(ch, k, s), SwitchTo(ch, k))
  {
    InRound(ch, conf, k, ch.starts[k]);
    if s < ch.starts[k] {
      SwitchAhead(ch, conf, k, s);
    } else {
      SwitchBehind(ch, conf, k, s);
    }
  }

  /** Searching from close to a switch finds that switch, and no other, exactly when it is in reach. */
  lemma BoundaryAtSwitch(ch: Chain, conf: Config, k: nat, q: Search, r: Result<Boundary, Failure>)
    requires Tiles(ch, conf) && 0 < k < |ch.ids|
    requires q.anchor.Some? && NearSwitch(ch, k, q.anchor.value) && AllRead(q)
    requires SearchResult(conf, q, r)
    ensures 0 < ch.starts[k] < TWO_32 && r == SwitchOutcome(ch, k, q.anchor.value, q.found)
  {
    var s := q.anchor.value;
    SwitchIsOnlyChange(ch, conf, k, s);
    OnlyChangeOutcome(conf, q, r, SwitchSide(ch, k, s), SwitchDistance(ch, k, s), SwitchTo(ch, k));
  }

  /** The query starts inside round `i`, which is over, time lookups land close to its two switches, and every
      configuration asked for can be read. */
  ghost predicate AskedInside(ch: Chain, i: nat, q: Query)
    requires i + 1 < |ch.ids| < |ch.starts|
  {
    && q.anchor.Some? && ch.starts[i] <= q.anchor.value < ch.starts[i + 1]
    && q.anchorRead && AllRead(q.startWalk) && AllRead(q.endWalk) && ch.ids[i + 1] <= q.now
    && q.landing(ch.ids[i]).Some? && NearSwitch(ch, i, q.landing(ch.ids[i]).value)
    && q.landing(ch.ids[i + 1]).Some? && NearSwitch(ch, i + 1, q.landing(ch.ids[i + 1]).value)
  }

  /** Reconstruction is exact: asked from anywhere inside a finished round, a round is returned exactly when both its
      switches are in reach, and then it is that round with precisely its blocks and neighbours. */
  lemma RoundReconstructed(ch: Chain, conf: Config, i: nat, q: Query, r: Result<Round, Failure>)
    requires Tiles(ch, conf) && 0 < i && i + 1 < |ch.ids| && AskedInside(ch, i, q)
    requires RoundResult(conf, q, r)
    ensures r.Ok? <==> && SwitchInReach(ch, i, q.landing(ch.ids[i]).value, q.startWalk.found)
                       && SwitchInReach(ch, i + 1, q.landing(ch.ids[i + 1]).value, q.endWalk.found)
    ensures r.Ok? ==> r.value == Round(ch.ids[i], ch.ids[i], ch.ids[i + 1], ch.starts[i], ch.starts[i + 1] - 1,
                                       ch.ids[i - 1], ch.ids[i + 1], ch.starts[i + 1])
  {
    InRound(ch, conf, i, q.anchor.value);
    InRound(ch, conf, i, ch.starts[i]);
    InRound(ch, conf, i + 1, ch.starts[i + 1]);
    forall b: Result<Boundary, Failure> | SearchResult(conf, StartSearch(conf, q), b)
      ensures b == SwitchOutcome(ch, i, q.landing(ch.ids[i]).value, q.startWalk.found)
    {
      BoundaryAtSwitch(ch, conf, i, StartSearch(conf, q), b);
    }
    forall b: Result<Boundary, Failure> | SearchResult(conf, EndSearch(conf, q), b)
      ensures b == SwitchOutcome(ch, i + 1, q.landing(ch.ids[i + 1]).value, q.endWalk.found)
    {
      BoundaryAtSwitch(ch, conf, i + 1, EndSearch(conf, q), b);
    }
  }

  /** Without failed lookups every switch near which a lookup lands is in reach. */
  lemma SwitchInReachWithoutFailure(ch: Chain, k: nat, p: uint32, q: Search)
    requires k < |ch.starts| && NearSwitch(ch, k, p) && NoneMissing(q)
    ensures SwitchInReach(ch, k, p, q.found)
  {
    HitsWithoutFailure(q, 0, MAX_BOUNDARY_SEARCH);
    HitsWithoutFailure(q, 1, MAX_BOUNDARY_SEARCH);
  }

  // ---- the other way to the previous election ----

  /** The block `k` steps back and all before it can be read, and up to there the election does not change. */
  predicate SameBack(conf: Config, start: uint32, read: nat -> bool, k: nat) {
    forall j :: 0 <= j <= k ==> read(j) && conf(Behind(start, j)).since == conf(start).since
  }

  /** Exactly what the backward walk returns; `read(k)` tells whether the block `k` steps back can be read. */
  ghost predicate PrevResult(conf: Config, start: uint32, read: nat -> bool, r: Result<int, Failure>) {
    if start <= 1 then r == Err(BadStart)
    else match r
      case Ok(e) => exists k :: 0 < k <= MAX_BACKWARD_STEPS && SameBack(conf, start, read, k - 1) && read(k)
                      && e == conf(Behind(start, k)).since != conf(start).since
      case Err(NotFound) => SameBack(conf, start, read, MAX_BACKWARD_STEPS)
      case Err(ReadFailed) =>
        !read(0) || (exists k :: 0 < k <= MAX_BACKWARD_STEPS && SameBack(conf, start, read, k - 1) && !read(k))
      case Err(_) => false
  }

  /** Walks back block by block until the election differs from that of `start`. */
  method FetchPrevElectionId(conf: Config, start: uint32, read: nat -> bool) returns (r: Result<int, Failure>)
    ensures PrevResult(conf, start, read, r)
  {
    if start <= 1 { return Err(BadStart); }
    if !read(0) { return Err(ReadFailed); }
    var current := conf(start).since;
    var block := start;
    for i := 0 to MAX_BACKWARD_STEPS
      invariant block == Behind(start, i) && SameBack(conf, start, read, i)
    {
      block := Behind(block, 1);
      BehindStep(start, i);
      if !read(i + 1) { return Err(ReadFailed); }
      if conf(block).since != current {
        return Ok(conf(block).since);
      }
    }
    return Err(NotFound);
  }

  /** What the walk returns, block by block: the first different election within a thousand blocks when everything up to
      it can be read, a failed read when one comes first, and nothing when there is neither. */
  lemma PrevWalk(conf: Config, start: uint32, read: nat -> bool, r: Result<int, Failure>, k: nat)
    requires PrevResult(conf, start, read, r) && k <= 1000 && k <= start
    requires forall j: nat :: j < k ==> read(j) && conf(start - j).since == conf(start).since
    ensures start <= 1 ==> r == Err(BadStart)
    ensures start > 1 && !read(k) ==> r == Err(ReadFailed)
    ensures start > 1 && read(k) && conf(start - k).since != conf(start).since ==> r == Ok(conf(start - k).since)
    ensures start > 1 && k == 1000 && read(k) && conf(start - k).since == conf(start).since ==> r == Err(NotFound)
  {
    forall j: nat | j < k ensures read(j) && conf(Behind(start, j)).since == conf(start).since {
      assert Behind(start, j) == start - j;
    }
    assert Behind(start, k) == start - k;
  }

  /** The walk names the election before round `i` exactly when it starts inside that round, at most 999 blocks
      after its first block. Started from a landing just before the round it never does. */
  lemma PrevElectionIff(ch: Chain, conf: Config, i: nat, start: uint32, read: nat -> bool, r: Result<int, Failure>)
    requires Tiles(ch, conf) && 0 < i < |ch.ids|
    requires ch.starts[i - 1] <= start < ch.starts[i + 1] && forall k :: read(k)
    requires PrevResult(conf, start, read, r)
    ensures r == Ok(ch.ids[i - 1]) <==> ch.starts[i] <= start <= ch.starts[i] + 999
  {
    var first := ch.starts[i];
    if start >= first {
      var d := start - first + 1;
      forall j: nat | j < d ensures conf(Behind(start, j)).since == ch.ids[i] {
        InRound(ch, conf, i, start - j);
      }
      assert Behind(start, d) == first - 1;
      InRound(ch, conf, i - 1, first - 1);
    } else {
      assert conf(start).since == ch.ids[i - 1];
    }
  }

  /** Both ways to the previous election agree wherever both are meant to be used. */
  lemma PrevElectionWaysAgree(ch: Chain, conf: Config, i: nat, start: uint32, read: nat -> bool,
                              walked: Result<int, Failure>, q: Search, searched: Result<Boundary, Failure>)
    requires Tiles(ch, conf) && 0 < i < |ch.ids|
    requires ch.starts[i] <= start < ch.starts[i + 1] && start <= ch.starts[i] + 999 && forall k :: read(k)
    requires PrevResult(conf, start, read, walked)
    requires q.anchor.Some? && NearSwitch(ch, i, q.anchor.value) && AllRead(q)
    requires SearchResult(conf, q, searched) && searched.Ok?
    ensures walked == Ok(searched.value.beforeId)
  {
    PrevElectionIff(ch, conf, i, start, read, walked);
    BoundaryAtSwitch(ch, conf, i, q, searched);
  }
}
