/** The retry loop around liteserver requests, with and without the exclusion set reaching the client. */
module Retry {
  import opened Options
  import opened Numbers
  import opened RoundRobin

  const RETRY_ATTEMPTS: nat := 30

  predicate Contains(s: string, part: string) {
    exists i :: 0 <= i <= |s| && |part| <= |s| - i && s[i..][..|part|] == part
  }

  predicate IsPermanent(msg: string) {
    Contains(msg, "no connections available")
  }

  predicate IsStateGC(msg: string) {
    Contains(msg, "state already gc'd") || Contains(msg, "ltdb: block not found")
  }

  lemma ContainsIff(s: string, part: string)
    ensures Contains(s, part) <==> exists pre, post :: s == pre + part + post
  {
    if i :| 0 <= i <= |s| && |part| <= |s| - i && s[i..][..|part|] == part {
      assert s == s[..i] + part + s[i..][|part|..];
    }
    if pre, post :| s == pre + part + post {
      assert s[|pre|..][..|part|] == part;
    }
  }

  datatype Reply<+T> = Value(value: T) | Fault(msg: string)

  /** What a retry session meets: which servers are connected at each attempt, what each would reply, and the value
      the client's counter holds when the attempt bumps it, whatever other requests did to it in between. */
  datatype Env<T> = Env(servers: nat, up: nat -> (nat -> bool), reply: (nat, nat) -> Reply<T>, before: nat -> uint64)

  /** How a session ends, and after how many calls. */
  datatype Outcome<+T> =
    | Done(value: T, calls: nat)
    | Failed(msg: string, calls: nat)
    | Crashed(calls: nat)

  /** The attempt a session ends with; a crashed attempt makes no call. */
  function LastAttempt<T>(r: Outcome<T>): int {
    if r.Crashed? then r.calls else r.calls - 1
  }

  function Ticket<T>(env: Env<T>, i: nat): uint64 {
    (env.before(i) + 1) % TWO_64
  }

  /** The server attempt `i` uses; a detached session's exclusions never reach the client. */
  function PickAt<T>(env: Env<T>, threaded: bool, i: nat, excluded: set<int>): Pick {
    Choose(env.servers, env.up(i), if threaded then excluded else {}, Ticket(env, i))
  }

  /** One attempt either ends the session or goes on to the next with the state given here. */
  datatype Step<+T> = Stop(outcome: Outcome<T>) | Again(excluded: set<int>, lastUsed: int, msg: string)

  /** A state-gc reply excludes the server noted last, which in a detached session is never updated. */
  function Attempt<T>(env: Env<T>, threaded: bool, i: nat, excluded: set<int>, lastUsed: int): Step<T> {
    match PickAt(env, threaded, i, excluded)
    case Crash => Stop(Crashed(i))
    case Server(s) =>
      match env.reply(i, s)
      case Value(v) => Stop(Done(v, i + 1))
      case Fault(msg) =>
        var used := if threaded then s else lastUsed;
        if IsPermanent(msg) then Stop(Failed(msg, i + 1))
        else Again(if IsStateGC(msg) then excluded + {used} else excluded, used, msg)
  }

  /** The retry loop from attempt `i` on, whatever one attempt does. */
  function Loop<T>(step: (nat, set<int>, int) -> Step<T>, i: nat, excluded: set<int>, lastUsed: int,
                   lastErr: string): Outcome<T>
    decreases RETRY_ATTEMPTS - i
  {
    if i >= RETRY_ATTEMPTS then Failed(lastErr, i) else
      match step(i, excluded, lastUsed)
      case Stop(outcome) => outcome
      case Again(excluded', lastUsed', msg) => Loop(step, i + 1, excluded', lastUsed', msg)
  }

  function AttemptIn<T>(env: Env<T>, threaded: bool): (nat, set<int>, int) -> Step<T> {
    (i: nat, excluded: set<int>, lastUsed: int) => Attempt(env, threaded, i, excluded, lastUsed)
  }

  /** A session as it begins: nothing excluded and no server used yet. */
  function Session<T>(env: Env<T>, threaded: bool): Outcome<T> {
    Loop(AttemptIn(env, threaded), 0, {}, 0, "")
  }

  /** One attempt on the client and the session's exclusions. Its first statement is what other requests do to the
      shared counter in the meantime. */
  method MakeAttempt<T>(client: RoundRobinClient, exclude: RetryExclude, threaded: bool, env: Env<T>, i: nat)
    returns (stop: Option<Outcome<T>>, lastErr: string)
    requires client.servers == env.servers
    modifies client`counter, exclude
    ensures client.counter == if client.servers == 0 then env.before(i) else Ticket(env, i)
    ensures match AttemptIn(env, threaded)(i, old(exclude.excluded), old(exclude.lastUsed))
            case Stop(outcome) => stop == Some(outcome) && LastAttempt(outcome) == i
            case Again(excluded, lastUsed, msg) =>
              stop.None? && exclude.excluded == excluded && exclude.lastUsed == lastUsed && lastErr == msg
  {
    client.counter := env.before(i);
    var p := client.ClientForRequest(env.up(i), if threaded then exclude else null);
    if p.Crash? {
      return Some(Crashed(i)), "";
    }
    var reply := env.reply(i, p.index);
    if reply.Value? {
      return Some(Done(reply.value, i + 1)), "";
    }
    if IsPermanent(reply.msg) {
      return Some(Failed(reply.msg, i + 1)), reply.msg;
    }
    if IsStateGC(reply.msg) {
      exclude.excluded := exclude.excluded + {exclude.lastUsed};
    }
    return None, reply.msg;
  }

  lemma LoopUnfolds<T>(step: (nat, set<int>, int) -> Step<T>, i: nat, excluded: set<int>, lastUsed: int,
                       lastErr: string)
    requires i < RETRY_ATTEMPTS
    ensures Loop(step, i, excluded, lastUsed, lastErr)
         == match step(i, excluded, lastUsed)
            case Stop(outcome) => outcome
            case Again(excluded', lastUsed', msg) => Loop(step, i + 1, excluded', lastUsed', msg)
  {
  }

  /** Calls until one succeeds, at most thirty times; a permanent error ends the session at once. */
  method RetryWithContext<T>(client: RoundRobinClient, threaded: bool, env: Env<T>) returns (r: Outcome<T>)
    requires client.servers == env.servers
    modifies client`counter
    ensures r == Session(env, threaded)
    ensures 0 <= LastAttempt(r) < RETRY_ATTEMPTS
    ensures client.servers > 0 ==> client.counter == Ticket(env, LastAttempt(r))
  {
    ghost var step := AttemptIn(env, threaded);
    var exclude := new RetryExclude();
    var lastErr := "";
    for i := 0 to RETRY_ATTEMPTS
      invariant fresh(exclude)
      invariant i > 0 && client.servers > 0 ==> client.counter == Ticket(env, i - 1)
      invariant Loop(step, i, exclude.excluded, exclude.lastUsed, lastErr) == Loop(step, 0, {}, 0, "")
    {
      LoopUnfolds(step, i, exclude.excluded, exclude.lastUsed, lastErr);
      var stop;
      stop, lastErr := MakeAttempt(client, exclude, threaded, env, i);
      if stop.Some? {
        return stop.value;
      }
    }
    return Failed(lastErr, RETRY_ATTEMPTS);
  }

  /** Server `g` has the block and stays connected, at most the servers in `all` are ever connected, and a connected
      server that fails says that it does not have the block. The counter may be moved in any way
      below half its range. */
  ghost predicate ArchiveStaysUp<T>(env: Env<T>, all: set<int>, g: nat) {
    && g in all && g < env.servers
    && (forall i: nat :: env.up(i)(g) && env.reply(i, g).Value?)
    && (forall i: nat, s: nat :: s < env.servers && env.up(i)(s) ==> s in all)
    && (forall i: nat, s: nat :: s in all && env.reply(i, s).Fault? ==>
          IsStateGC(env.reply(i, s).msg) && !IsPermanent(env.reply(i, s).msg))
    && (forall i: nat :: env.before(i) < TWO_63 - 1)
  }

  /** Every attempt succeeds or excludes at least one more server of `all`, but never `g`. */
  ghost predicate Shrinks<T>(step: (nat, set<int>, int) -> Step<T>, all: set<int>, g: int) {
    forall i: nat, excluded: set<int>, lastUsed: int :: g !in excluded ==>
      match step(i, excluded, lastUsed)
      case Stop(outcome) => outcome.Done? && outcome.calls == i + 1
      case Again(excluded', _, _) => g !in excluded' && all - excluded' < all - excluded
  }

  /** The progress measure: the servers of `all` that are not excluded yet. */
  lemma {:induction false} LoopProgress<T>(step: (nat, set<int>, int) -> Step<T>, all: set<int>, g: int, i: nat,
                                           excluded: set<int>, lastUsed: int, lastErr: string)
    requires Shrinks(step, all, g) && g in all && g !in excluded
    requires i + |all - excluded| <= RETRY_ATTEMPTS
    ensures var r := Loop(step, i, excluded, lastUsed, lastErr);
            r.Done? && r.calls <= i + |all - excluded|
    decreases RETRY_ATTEMPTS - i
  {
    assert g in all - excluded;
    match step(i, excluded, lastUsed) {
      case Stop(_) =>
      case Again(excluded', lastUsed', msg) =>
        ProperSubsetSmaller(all - excluded', all - excluded);
        LoopProgress(step, all, g, i + 1, excluded', lastUsed', msg);
    }
  }

  lemma ProperSubsetSmaller(a: set<int>, b: set<int>)
    requires a < b
    ensures |a| < |b|
  {
    assert b == a + (b - a);
    assert b - a != {};
  }

  /** An attempt succeeds or excludes a server that was not excluded before, and never the one with the block. */
  lemma ThreadedAttempt<T>(env: Env<T>, all: set<int>, g: nat, i: nat, excluded: set<int>, lastUsed: int)
    returns (s: int)
    requires ArchiveStaysUp(env, all, g) && g !in excluded
    ensures s in all - excluded
    ensures match Attempt(env, true, i, excluded, lastUsed)
            case Stop(outcome) => outcome.Done? && outcome.calls == i + 1
            case Again(excluded', lastUsed', _) => s != g && excluded' == excluded + {s} && lastUsed' == s
  {
    assert env.up(i)(g);
    PickIsHealthyIff(env.servers, env.up(i), excluded, Ticket(env, i));
    s := PickAt(env, true, i, excluded).index;
  }

  lemma MissingBlockFault(msg: string)
    requires (exists pre, post :: msg == pre + "state already gc'd" + post)
             || (exists pre, post :: msg == pre + "ltdb: block not found" + post)
    requires forall pre, post :: msg != pre + "no connections available" + post
    ensures IsStateGC(msg) && !IsPermanent(msg)
  {
    ContainsIff(msg, "state already gc'd");
    ContainsIff(msg, "ltdb: block not found");
    ContainsIff(msg, "no connections available");
  }

  /** One session is enough when server `g` has the block and stays connected, at most thirty servers are ever
      connected, and those that fail say that they do not have the block, however others move the counter. */
  lemma ThreadedProgress<T>(env: Env<T>, all: set<int>, g: nat)
    requires g in all && g < env.servers && |all| <= 30
    requires forall i: nat :: env.up(i)(g) && env.reply(i, g).Value? && env.before(i) < TWO_63 - 1
    requires forall i: nat, s: nat :: s < env.servers && env.up(i)(s) ==> s in all
    requires forall i: nat, s: nat :: s in all && env.reply(i, s).Fault? ==>
               var msg := env.reply(i, s).msg;
               && ((exists pre, post :: msg == pre + "state already gc'd" + post)
                   || (exists pre, post :: msg == pre + "ltdb: block not found" + post))
               && (forall pre, post :: msg != pre + "no connections available" + post)
    ensures Session(env, true).Done? && Session(env, true).calls <= |all|
  {
    forall i: nat, s: nat | s in all && env.reply(i, s).Fault?
      ensures IsStateGC(env.reply(i, s).msg) && !IsPermanent(env.reply(i, s).msg)
    {
      MissingBlockFault(env.reply(i, s).msg);
    }
    ArchiveSuffices(env, all, g);
  }

  lemma ArchiveSuffices<T>(env: Env<T>, all: set<int>, g: nat)
    requires ArchiveStaysUp(env, all, g) && |all| <= RETRY_ATTEMPTS
    ensures Session(env, true).Done? && Session(env, true).calls <= |all|
  {
    var step := AttemptIn(env, true);
    forall i: nat, excluded: set<int>, lastUsed: int | g !in excluded
      ensures match step(i, excluded, lastUsed)
              case Stop(outcome) => outcome.Done? && outcome.calls == i + 1
              case Again(excluded', _, _) => g !in excluded' && all - excluded' < all - excluded
    {
      var s := ThreadedAttempt(env, all, g, i, excluded, lastUsed);
      assert s in all - excluded && s !in all - (excluded + {s});
    }
    assert all - {} == all;
    LoopProgress(step, all, g, 0, {}, 0, "");
  }

  // ---- how sessions end otherwise ----

  /** A session whose first reply says that no connection is available fails after that one call. */
  lemma NoConnectionEndsSession<T>(env: Env<T>, threaded: bool, s: nat, pre: string, post: string)
    requires PickAt(env, threaded, 0, {}) == Server(s)
    requires env.reply(0, s) == Fault(pre + "no connections available" + post)
    ensures Session(env, threaded) == Failed(pre + "no connections available" + post, 1)
  {
    ContainsIff(pre + "no connections available" + post, "no connections available");
    LoopUnfolds(AttemptIn(env, threaded), 0, {}, 0, "");
  }

  /** A session in which every server replies with an error that is not permanent gives up after thirty calls. */
  lemma SessionGivesUp<T>(env: Env<T>, threaded: bool)
    requires CounterLow(env)
    requires forall i: nat, s: nat :: i < 30 && s < env.servers ==>
               && env.reply(i, s).Fault?
               && (forall pre, post :: env.reply(i, s).msg != pre + "no connections available" + post)
    ensures Session(env, threaded).Failed? && Session(env, threaded).calls == 30
  {
    var step := AttemptIn(env, threaded);
    forall i: nat, excluded: set<int>, lastUsed: int | i < RETRY_ATTEMPTS ensures step(i, excluded, lastUsed).Again? {
      FaultAsksAgain(env, threaded, i, excluded, lastUsed);
    }
    LoopGivesUp(step, 0, {}, 0, "");
  }

  lemma FaultAsksAgain<T>(env: Env<T>, threaded: bool, i: nat, excluded: set<int>, lastUsed: int)
    requires CounterLow(env) && i < RETRY_ATTEMPTS
    requires forall s: nat :: s < env.servers ==>
               && env.reply(i, s).Fault?
               && (forall pre, post :: env.reply(i, s).msg != pre + "no connections available" + post)
    ensures Attempt(env, threaded, i, excluded, lastUsed).Again?
  {
    var e := if threaded then excluded else {};
    PickIsHealthyIff(env.servers, env.up(i), e, Ticket(env, i));
    var s := PickAt(env, threaded, i, excluded).index;
    ContainsIff(env.reply(i, s).msg, "no connections available");
  }

  lemma {:induction false} LoopGivesUp<T>(step: (nat, set<int>, int) -> Step<T>, i: nat, excluded: set<int>,
                                          lastUsed: int, lastErr: string)
    requires i <= RETRY_ATTEMPTS
    requires forall j: nat, e: set<int>, u: int :: j < RETRY_ATTEMPTS ==> step(j, e, u).Again?
    ensures Loop(step, i, excluded, lastUsed, lastErr).Failed?
    ensures Loop(step, i, excluded, lastUsed, lastErr).calls == RETRY_ATTEMPTS
    decreases RETRY_ATTEMPTS - i
  {
    if i < RETRY_ATTEMPTS {
      var next := step(i, excluded, lastUsed);
      LoopGivesUp(step, i + 1, next.excluded, next.lastUsed, next.msg);
    }
  }

  /** Only a reply that a server does not have the block excludes it: where no reply says so, threading the exclusions
      makes no difference. */
  lemma OtherFaultsExcludeNobody<T>(env: Env<T>)
    requires forall i: nat, s: nat :: env.reply(i, s).Fault? ==>
               && (forall pre, post :: env.reply(i, s).msg != pre + "state already gc'd" + post)
               && (forall pre, post :: env.reply(i, s).msg != pre + "ltdb: block not found" + post)
    ensures Session(env, true) == Session(env, false)
  {
    var step, step' := AttemptIn(env, true), AttemptIn(env, false);
    forall i: nat, u: int, u': int ensures SameWithoutExclusions(step(i, {}, u), step'(i, {}, u')) {
      OtherFaultExcludesNobody(env, i, u, u');
    }
    SameLoops(step, step', 0, 0, 0, "");
  }

  /** Two attempts that exclude nobody and otherwise agree. */
  ghost predicate SameWithoutExclusions<T>(a: Step<T>, b: Step<T>) {
    if a.Stop? then a == b else b.Again? && a.excluded == b.excluded == {} && a.msg == b.msg
  }

  lemma OtherFaultExcludesNobody<T>(env: Env<T>, i: nat, u: int, u': int)
    requires forall s: nat :: env.reply(i, s).Fault? ==>
               && (forall pre, post :: env.reply(i, s).msg != pre + "state already gc'd" + post)
               && (forall pre, post :: env.reply(i, s).msg != pre + "ltdb: block not found" + post)
    ensures SameWithoutExclusions(Attempt(env, true, i, {}, u), Attempt(env, false, i, {}, u'))
  {
    var p := PickAt(env, true, i, {});
    if p.Server? && env.reply(i, p.index).Fault? {
      ContainsIff(env.reply(i, p.index).msg, "state already gc'd");
      ContainsIff(env.reply(i, p.index).msg, "ltdb: block not found");
    }
  }

  lemma {:induction false} SameLoops<T>(step: (nat, set<int>, int) -> Step<T>, step': (nat, set<int>, int) -> Step<T>,
                                        i: nat, u: int, u': int, lastErr: string)
    requires forall j: nat, v: int, v': int :: SameWithoutExclusions(step(j, {}, v), step'(j, {}, v'))
    ensures Loop(step, i, {}, u, lastErr) == Loop(step', i, {}, u', lastErr)
    decreases RETRY_ATTEMPTS - i
  {
    if i < RETRY_ATTEMPTS {
      var next, next' := step(i, {}, u), step'(i, {}, u');
      assert SameWithoutExclusions(next, next');
      if next.Again? { SameLoops(step, step', i + 1, next.lastUsed, next'.lastUsed, next.msg); }
    }
  }

  // ---- detached sessions ----

  /** Below half its range the counter never makes a pick crash. */
  ghost predicate CounterLow<T>(env: Env<T>) {
    env.servers > 0 && forall i: nat :: i < RETRY_ATTEMPTS ==> env.before(i) < TWO_63 - 1
  }

  /** The server attempt `j` comes to: it depends on the counter and on the connected servers only. */
  function Turn<T>(env: Env<T>, j: nat): nat
    requires env.servers > 0
  {
    var c := Candidates(env.servers, env.up(j), {});
    if |c| == 0 then (env.before(j) + 1) % env.servers else c[(env.before(j) + 1) % |c|]
  }

  function Replies<T>(env: Env<T>): nat -> Reply<T>
    requires env.servers > 0
  {
    (j: nat) => env.reply(j, Turn(env, j))
  }

  /** The replies before the `n`-th are errors that may be overcome. */
  predicate Passed<T>(reply: nat -> Reply<T>, n: nat) {
    forall j: nat :: j < n ==> reply(j).Fault? && !IsPermanent(reply(j).msg)
  }

  /** The result is the first reply that is a value or a permanent error, or else the last error of all. */
  ghost predicate FirstAnswer<T>(reply: nat -> Reply<T>, r: Outcome<T>) {
    match r
    case Done(v, calls) => 0 < calls <= RETRY_ATTEMPTS && Passed(reply, calls - 1) && reply(calls - 1) == Value(v)
    case Failed(msg, calls) =>
      && 0 < calls <= RETRY_ATTEMPTS && Passed(reply, calls - 1) && reply(calls - 1) == Fault(msg)
      && (calls == RETRY_ATTEMPTS || IsPermanent(msg))
    case Crashed(_) => false
  }

  /** No attempt depends on what was excluded before. */
  ghost predicate Follows<T>(step: (nat, set<int>, int) -> Step<T>, reply: nat -> Reply<T>) {
    forall i: nat, excluded: set<int>, lastUsed: int :: i < RETRY_ATTEMPTS ==>
      match reply(i)
      case Value(v) => step(i, excluded, lastUsed) == Stop(Done(v, i + 1))
      case Fault(msg) =>
        if IsPermanent(msg) then step(i, excluded, lastUsed) == Stop(Failed(msg, i + 1))
        else step(i, excluded, lastUsed).Again? && step(i, excluded, lastUsed).msg == msg
  }

  lemma {:induction false} LoopFollows<T>(step: (nat, set<int>, int) -> Step<T>, reply: nat -> Reply<T>, i: nat,
                                          excluded: set<int>, lastUsed: int, lastErr: string)
    requires Follows(step, reply) && i <= RETRY_ATTEMPTS && Passed(reply, i)
    requires i > 0 ==> reply(i - 1) == Fault(lastErr)
    ensures FirstAnswer(reply, Loop(step, i, excluded, lastUsed, lastErr))
    decreases RETRY_ATTEMPTS - i
  {
    if i < RETRY_ATTEMPTS {
      var next := step(i, excluded, lastUsed);
      if next.Again? {
        LoopFollows(step, reply, i + 1, next.excluded, next.lastUsed, next.msg);
      }
    }
  }

  lemma DetachedAttempt<T>(env: Env<T>, i: nat, excluded: set<int>, lastUsed: int)
    requires CounterLow(env) && i < RETRY_ATTEMPTS
    ensures PickAt(env, false, i, excluded) == Server(Turn(env, i))
  {
  }

  lemma DetachedFollows<T>(env: Env<T>)
    requires CounterLow(env)
    ensures Follows(AttemptIn(env, false), Replies(env))
  {
    var step, reply := AttemptIn(env, false), Replies(env);
    forall i: nat, excluded: set<int>, lastUsed: int | i < RETRY_ATTEMPTS
      ensures match reply(i)
              case Value(v) => step(i, excluded, lastUsed) == Stop(Done(v, i + 1))
              case Fault(msg) =>
                if IsPermanent(msg) then step(i, excluded, lastUsed) == Stop(Failed(msg, i + 1))
                else step(i, excluded, lastUsed).Again? && step(i, excluded, lastUsed).msg == msg
    {
      DetachedAttempt(env, i, excluded, lastUsed);
    }
  }

  /** Whatever servers come and go and however others move the counter, a detached session returns the first answer
      among the replies of the servers its turns come to: excluding servers makes no difference to it. */
  lemma DetachedIsFirstAnswer<T>(env: Env<T>)
    requires CounterLow(env)
    ensures FirstAnswer(Replies(env), Session(env, false))
  {
    DetachedFollows(env);
    LoopFollows(AttemptIn(env, false), Replies(env), 0, {}, 0, "");
  }

  /** Reply `j` is a value, and no permanent error comes before it. */
  predicate AnsweredAt<T>(reply: nat -> Reply<T>, j: nat) {
    && j < RETRY_ATTEMPTS && reply(j).Value?
    && forall k: nat :: k < j && reply(k).Fault? ==> !IsPermanent(reply(k).msg)
  }

  ghost predicate NothingPermanent<T>(env: Env<T>) {
    forall i: nat, s: nat :: env.reply(i, s).Fault? ==> !IsPermanent(env.reply(i, s).msg)
  }

  lemma AnsweredUnlessPermanent<T>(env: Env<T>, j: nat)
    requires env.servers > 0 && NothingPermanent(env) && j < RETRY_ATTEMPTS
    ensures AnsweredAt(Replies(env), j) <==> env.reply(j, Turn(env, j)).Value?
  {
    var reply := Replies(env);
    forall k: nat | reply(k).Fault? ensures !IsPermanent(reply(k).msg) {
      assert reply(k) == env.reply(k, Turn(env, k));
    }
  }

  /** Over a fixed set of connected servers and without permanent errors, being answered is a matter of the counter. */
  lemma AnsweredOverFixedServers<T>(env: Env<T>, up: nat -> bool, j: nat)
    requires CounterLow(env) && Candidates(env.servers, up, {}) != [] && j < RETRY_ATTEMPTS
    requires forall i: nat :: i < RETRY_ATTEMPTS ==> env.up(i) == up
    requires NothingPermanent(env)
    ensures var c := Candidates(env.servers, up, {});
            AnsweredAt(Replies(env), j) <==> env.reply(j, c[(env.before(j) + 1) % |c|]).Value?
  {
    AnsweredUnlessPermanent(env, j);
  }

  lemma FirstAnswerIff<T>(reply: nat -> Reply<T>, r: Outcome<T>)
    requires FirstAnswer(reply, r)
    ensures r.Done? <==> exists j: nat :: AnsweredAt(reply, j)
    ensures forall j: nat :: AnsweredAt(reply, j) ==> r.calls <= j + 1
  {
    if r.Done? {
      assert AnsweredAt(reply, r.calls - 1);
    }
  }

  /** Exactly when a detached session succeeds: some attempt's turn comes to a server that answers, before any comes
      to one that replies with a permanent error. It then needs no more calls than up to that attempt. */
  lemma DetachedSucceedsIff<T>(env: Env<T>)
    requires CounterLow(env)
    ensures Session(env, false).Done? <==> exists j: nat :: AnsweredAt(Replies(env), j)
    ensures forall j: nat :: AnsweredAt(Replies(env), j) ==> Session(env, false).calls <= j + 1
  {
    DetachedIsFirstAnswer(env);
    FirstAnswerIff(Replies(env), Session(env, false));
  }

  /** The same over a fixed set of connected servers and without permanent errors: only the counter values that other
      requests leave behind and the replies matter. */
  lemma DetachedSucceedsOverFixedServersIff<T>(env: Env<T>, up: nat -> bool)
    requires CounterLow(env) && Candidates(env.servers, up, {}) != []
    requires forall j: nat :: j < RETRY_ATTEMPTS ==> env.up(j) == up
    requires NothingPermanent(env)
    ensures var c := Candidates(env.servers, up, {});
            Session(env, false).Done?
            <==> exists j: nat :: j < 30 && env.reply(j, c[(env.before(j) + 1) % |c|]).Value?
  {
    var c := Candidates(env.servers, up, {});
    DetachedSucceedsIff(env);
    forall j: nat | j < RETRY_ATTEMPTS
      ensures AnsweredAt(Replies(env), j) <==> env.reply(j, c[(env.before(j) + 1) % |c|]).Value?
    {
      AnsweredOverFixedServers(env, up, j);
    }
  }

  /** A session nobody interferes with, over a fixed set of connected servers and without permanent errors. */
  ghost predicate Uncontended<T>(env: Env<T>, up: nat -> bool, start: nat) {
    && start + env.servers + RETRY_ATTEMPTS + 1 < TWO_63
    && (forall i: nat :: i < RETRY_ATTEMPTS ==> env.up(i) == up && env.before(i) == start + i)
    && NothingPermanent(env)
  }

  /** Without exclusion such a session still comes to every connected server within as many attempts as there are. */
  lemma DetachedCoversAllServers<T>(env: Env<T>, up: nat -> bool, start: nat, g: nat) returns (turn: nat)
    requires Uncontended(env, up, start) && g < env.servers && up(g)
    requires |Candidates(env.servers, up, {})| <= RETRY_ATTEMPTS
    ensures turn < |Candidates(env.servers, up, {})|
    ensures Turn(env, turn) == g
    ensures forall excluded :: PickAt(env, false, turn, excluded) == Server(g)
  {
    turn := SomeTurnReaches(env.servers, up, start, g);
    forall excluded ensures PickAt(env, false, turn, excluded) == Server(g) {
      assert Ticket(env, turn) == start + 1 + turn;
    }
  }

  /** So it succeeds by then if one of the servers has the block. */
  lemma DetachedSucceeds<T>(env: Env<T>, up: nat -> bool, start: nat, g: nat)
    requires Uncontended(env, up, start) && g < env.servers && up(g)
    requires |Candidates(env.servers, up, {})| <= RETRY_ATTEMPTS
    requires forall i: nat :: env.reply(i, g).Value?
    ensures Session(env, false).Done? && Session(env, false).calls <= |Candidates(env.servers, up, {})|
  {
    var turn := DetachedCoversAllServers(env, up, start, g);
    DetachedSucceedsIff(env);
    AnsweredUnlessPermanent(env, turn);
  }

  /** A session that has a pinned client to itself: each attempt finds the counter as the one before left it, and the
      first finds the copy of the parent's. */
  ghost predicate OwnClient<T>(env: Env<T>, parent: uint64) {
    env.before(0) == parent && forall i: nat :: i < RETRY_ATTEMPTS ==> env.before(i + 1) == Ticket(env, i)
  }

  lemma {:induction false} OwnCounter<T>(env: Env<T>, parent: uint64, i: nat)
    requires OwnClient(env, parent) && i <= RETRY_ATTEMPTS && parent + RETRY_ATTEMPTS < TWO_64
    ensures env.before(i) == parent + i
  {
    if i > 0 {
      OwnCounter(env, parent, i - 1);
      var last: nat := i - 1;
      assert env.before(last + 1) == Ticket(env, last);
    }
  }

  /** Nobody contends with such a session, so a server that has the block is enough for it. */
  lemma OwnClientSucceeds<T>(env: Env<T>, up: nat -> bool, parent: uint64, g: nat)
    requires OwnClient(env, parent) && parent + env.servers + RETRY_ATTEMPTS + 1 < TWO_63
    requires (forall i: nat :: i < RETRY_ATTEMPTS ==> env.up(i) == up) && NothingPermanent(env)
    requires g < env.servers && up(g) && forall i: nat :: env.reply(i, g).Value?
    requires |Candidates(env.servers, up, {})| <= RETRY_ATTEMPTS
    ensures Uncontended(env, up, parent)
    ensures Session(env, false).Done? && Session(env, false).calls <= |Candidates(env.servers, up, {})|
  {
    forall i: nat | i < RETRY_ATTEMPTS ensures env.before(i) == parent + i {
      OwnCounter(env, parent, i);
    }
    DetachedSucceeds(env, up, parent, g);
  }

  /** Two servers, of which only server 0 has the block, and another request before each attempt. */
  function ContendedEnv(): Env<int> {
    Env(2, (i: nat) => (s: nat) => true,
        (i: nat, s: nat) => if s == 0 then Value(7) else Fault("state already gc'd"),
        (i: nat) => if i < RETRY_ATTEMPTS then 2 * i else 0)
  }

  lemma BothUp(up: nat -> bool)
    requires up(0) && up(1)
    ensures Candidates(2, up, {}) == [0, 1]
  {
    assert Candidates(0, up, {}) == [] && Candidates(1, up, {}) == [0];
  }

  lemma ContendedTurn(j: nat)
    requires j < RETRY_ATTEMPTS
    ensures Turn(ContendedEnv(), j) == 1
  {
    var env := ContendedEnv();
    BothUp(env.up(j));
    assert env.before(j) == 2 * j;
    TwoAlternate(j);
  }

  lemma TwoAlternate(j: nat)
    ensures (2 * j + 1) % 2 == 1
  {
  }

  lemma GCMessageIsNotPermanent()
    ensures IsStateGC("state already gc'd") && !IsPermanent("state already gc'd")
  {
    var msg := "state already gc'd";
    assert msg[0..][..|msg|] == msg;
  }

  lemma ContendedSessionStarves()
    ensures Session(ContendedEnv(), false) == Failed("state already gc'd", RETRY_ATTEMPTS)
  {
    var env := ContendedEnv();
    DetachedIsFirstAnswer(env);
    GCMessageIsNotPermanent();
    forall j: nat | j < RETRY_ATTEMPTS ensures Replies(env)(j) == Fault("state already gc'd") {
      ContendedTurn(j);
    }
  }

  lemma ContendedArchiveStaysUp()
    ensures ArchiveStaysUp(ContendedEnv(), {0, 1}, 0)
  {
    GCMessageIsNotPermanent();
  }

  /** Exclusion is what makes the difference under contention: in the same surroundings a detached session uses all
      thirty calls on the server without the block, and a threaded one succeeds by its second call. */
  lemma ContentionStarvesDetachedSession()
    ensures Session(ContendedEnv(), false) == Failed("state already gc'd", 30)
    ensures Session(ContendedEnv(), true).Done? && Session(ContendedEnv(), true).calls <= 2
  {
    ContendedSessionStarves();
    ContendedArchiveStaysUp();
    ArchiveSuffices(ContendedEnv(), {0, 1}, 0);
  }
}
