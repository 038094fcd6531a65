/**
 * Distributed locks with owner tokens, and the list of tokens one process remembers per key
 * (packages/platform-cache/src/cache.service.ts). The runs below follow ONE key: acquisitions and late
 * releases of this process, other processes, expiry, and the two pruning lines of `acquireLock`.
 */
module Locks {
  import opened Common

  type Token = string

  /** The value under a lock key, with the instant its TTL ends. */
  datatype Lock = Lock(token: Token, until: int)

  /** What `held` remembers of one acquisition: its token, and when its lease is believed to end. */
  datatype Remembered = Remembered(token: Token, until: int)

  const MAX_REMEMBERED := 16
  const PRUNE_AT := 1000

  predicate Live(l: Option<Lock>, now: int) { l.Some? && now < l.value.until }

  predicate HeldBy(l: Option<Lock>, now: int, token: Token) { Live(l, now) && l.value.token == token }

  /** SET NX PX */
  function AfterTryLock(l: Option<Lock>, now: int, ttlMs: nat, token: Token): Option<Lock> {
    if Live(l, now) then l else Some(Lock(token, now + ttlMs))
  }

  /** Compare-and-delete. */
  function AfterRelease(l: Option<Lock>, now: int, token: Token): Option<Lock> {
    if HeldBy(l, now, token) then None else l
  }

  /** Compare-and-expire. */
  function AfterExtend(l: Option<Lock>, now: int, token: Token, ms: nat): Option<Lock> {
    if HeldBy(l, now, token) then Some(Lock(token, now + ms)) else l
  }

  /** A token that does not hold the lock neither frees nor extends it. */
  lemma StrangerChangesNothing(l: Option<Lock>, now: int, token: Token, ms: nat)
    ensures AfterRelease(l, now, token) != l || AfterExtend(l, now, token, ms) != l ==> HeldBy(l, now, token)
    ensures 0 < ms ==> (Live(AfterTryLock(l, now, ms, token), now) &&
                        (HeldBy(AfterTryLock(l, now, ms, token), now, token) <== !Live(l, now)) &&
                        (Live(l, now) ==> AfterTryLock(l, now, ms, token) == l))
  {
  }

  /** A lock that is taken is its token's for exactly the lease; till then it is taken for everybody else. */
  lemma LockLastsItsLease(l: Option<Lock>, now: int, ttlMs: nat, token: Token, t: int)
    requires !Live(l, now) && now <= t
    ensures var l' := AfterTryLock(l, now, ttlMs, token);
            && (HeldBy(l', t, token) <==> t < now + ttlMs)
            && (Live(l', t) ==> forall other, ms: nat :: AfterTryLock(l', t, ms, other) == l')
  {
  }

  /** Its holder's extension starts the lease anew, and its holder's release ends it at once. */
  lemma HolderExtendsAndFrees(l: Option<Lock>, now: int, token: Token, ms: nat, t: int)
    requires HeldBy(l, now, token) && now <= t
    ensures HeldBy(AfterExtend(l, now, token, ms), t, token) <==> t < now + ms
    ensures !Live(AfterRelease(l, now, token), t)
  {
  }

  function LiveOnly(entries: seq<Remembered>, now: int): (live: seq<Remembered>)
    ensures forall e :: e in live <==> e in entries && now < e.until
    ensures |live| <= |entries|
  {
    if entries == [] then []
    else (if now < entries[0].until then [entries[0]] else []) + LiveOnly(entries[1..], now)
  }

  /** Append, and drop the oldest past the bound. */
  function Remember(entries: seq<Remembered>, e: Remembered): seq<Remembered> {
    var all := entries + [e];
    if MAX_REMEMBERED < |all| then all[1..] else all
  }

  /** The newest token is always remembered, last; only the oldest of more than sixteen is forgotten. */
  lemma RemembersTheNewest(entries: seq<Remembered>, e: Remembered)
    requires |entries| <= 16
    ensures var kept := Remember(entries, e);
            && kept[|kept| - 1] == e && |kept| == Min(16, |entries| + 1)
            && kept[..|kept| - 1] == entries[|entries| + 1 - |kept|..]
  {
  }

  // ---- runs on one key ----

  /**
   * `taken` lists the tokens this process's `acquireLock` put in the store, oldest first. Of these
   * `inflight` (the last few) await their reply, `held` are remembered, `calls` were consumed by a
   * `releaseLock`, `dropped` were pruned. `freeing` are consumed tokens whose script has yet to run.
   */
  datatype World = World(
    now: int, lock: Option<Lock>, taken: seq<Token>, inflight: nat, held: seq<Remembered>,
    freeing: set<Token>, calls: nat, dropped: nat, foreign: set<Token>)

  const START := World(0, None, [], 0, [], {}, 0, 0, {})

  datatype Event =
    | Tick(to: int)
    | Acquire(token: Token, ttlMs: nat)
    | Reply(until: int)
    | PruneStale
    | Call
    | Script(token: Token)
    | ForeignAcquire(token: Token, ttlMs: nat)
    | ForeignRelease(token: Token)
    | Evict

  predicate FreshToken(w: World, token: Token) { token !in w.taken && token !in w.foreign }

  function Step(w: World, e: Event): World {
    match e
    case Tick(to) => w.(now := Max(w.now, to))
    case Acquire(token, ttlMs) =>
      if Live(w.lock, w.now) || !FreshToken(w, token) then w
      else w.(lock := AfterTryLock(w.lock, w.now, ttlMs, token), taken := w.taken + [token], inflight := w.inflight + 1)
    case Reply(until) =>
      if w.inflight == 0 || |w.taken| < w.inflight then w
      else
        var held := Remember(w.held, Remembered(w.taken[|w.taken| - w.inflight], until));
        w.(held := held, inflight := w.inflight - 1,
           dropped := w.dropped + if |held| == |w.held| then 1 else 0)
    case PruneStale =>
      var live := LiveOnly(w.held, w.now);
      w.(held := live, dropped := w.dropped + |w.held| - |live|)
    case Call =>
      if w.held == [] then w
      else w.(held := w.held[1..], freeing := w.freeing + {w.held[0].token}, calls := w.calls + 1)
    case Script(token) =>
      if token !in w.freeing then w
      else w.(lock := AfterRelease(w.lock, w.now, token), freeing := w.freeing - {token})
    case ForeignAcquire(token, ttlMs) =>
      if Live(w.lock, w.now) || !FreshToken(w, token) then w
      else w.(lock := AfterTryLock(w.lock, w.now, ttlMs, token), foreign := w.foreign + {token})
    case ForeignRelease(token) =>
      if token in w.foreign then w.(lock := AfterRelease(w.lock, w.now, token)) else w
    case Evict => w.(lock := None)
  }

  function Play(w: World, es: seq<Event>): World
    decreases |es|
  {
    if es == [] then w else Play(Step(w, es[0]), es[1..])
  }

  /** `token` can only be the last of the list. */
  ghost predicate OnlyLast(held: seq<Remembered>, token: Token) {
    forall i :: 0 <= i < |held| - 1 ==> held[i].token != token
  }

  ghost predicate Known(w: World) {
    && |w.held| + w.inflight <= |w.taken|
    && (forall i, j :: 0 <= i < j < |w.taken| ==> w.taken[i] != w.taken[j])
    && (forall t :: t in w.taken ==> t !in w.foreign)
    && (forall e :: e in w.held ==> e.token in w.taken[..|w.taken| - w.inflight])
    && (forall t :: t in w.freeing ==> t in w.taken[..|w.taken| - w.inflight])
  }

  /** Of this process's tokens only the newest can still be the lock in the store, and it is the last
      remembered; once its own release is under way nothing else is remembered or on its way. */
  ghost predicate OnlyNewestLive(w: World) {
    w.taken != [] ==>
      var newest := w.taken[|w.taken| - 1];
      && OnlyLast(w.held, newest)
      && (newest in w.freeing ==> w.held == [] && w.inflight == 0)
      && (Live(w.lock, w.now) && w.lock.value.token in w.taken ==> w.lock.value.token == newest)
  }

  ghost predicate Inv(w: World) {
    w.calls + w.dropped + |w.held| + w.inflight == |w.taken| && Known(w) && OnlyNewestLive(w)
  }

  lemma {:induction false} LiveOnlyKeepsLast(held: seq<Remembered>, now: int, token: Token)
    requires OnlyLast(held, token)
    ensures OnlyLast(LiveOnly(held, now), token)
  {
    if 1 < |held| {
      LiveOnlyKeepsLast(held[1..], now, token);
    }
  }

  lemma ReplyKeepsKnown(w: World, until: int)
    requires Known(w)
    ensures Known(Step(w, Reply(until)))
  {
    if w.inflight != 0 && w.inflight <= |w.taken| {
      var n := |w.taken| - w.inflight;
      assert w.taken[..n + 1] == w.taken[..n] + [w.taken[n]];
    }
  }

  lemma AcquireKeepsKnown(w: World, token: Token, ttlMs: nat)
    requires Known(w)
    ensures Known(Step(w, Acquire(token, ttlMs)))
  {
    var w' := Step(w, Acquire(token, ttlMs));
    if w' != w {
      assert w'.taken[..|w'.taken| - w'.inflight] == w.taken[..|w.taken| - w.inflight];
    }
  }

  lemma StepKeepsKnown(w: World, e: Event)
    requires Known(w)
    ensures Known(Step(w, e))
  {
    match e
    case Acquire(token, ttlMs) => AcquireKeepsKnown(w, token, ttlMs);
    case Reply(until) => ReplyKeepsKnown(w, until);
    case _ =>
  }

  /** A token that is not remembered yet is neither of those that are. */
  lemma NotYetRemembered(w: World, token: Token)
    requires Known(w) && token !in w.taken[..|w.taken| - w.inflight]
    ensures forall i :: 0 <= i < |w.held| ==> w.held[i].token != token
  {
    forall i | 0 <= i < |w.held|
      ensures w.held[i].token != token
    {
      assert w.held[i] in w.held;
    }
  }

  lemma AcquireKeepsNewest(w: World, token: Token, ttlMs: nat)
    requires Inv(w)
    ensures OnlyNewestLive(Step(w, Acquire(token, ttlMs)))
  {
    if Step(w, Acquire(token, ttlMs)) != w {
      NotYetRemembered(w, token);
    }
  }

  lemma ReplyKeepsNewest(w: World, until: int)
    requires Inv(w)
    ensures OnlyNewestLive(Step(w, Reply(until)))
  {
    if w.inflight != 0 && w.taken != [] {
      NotYetRemembered(w, w.taken[|w.taken| - 1]);
    }
  }

  lemma StepKeepsNewest(w: World, e: Event)
    requires Inv(w)
    ensures OnlyNewestLive(Step(w, e))
  {
    match e
    case PruneStale =>
      if w.taken != [] { LiveOnlyKeepsLast(w.held, w.now, w.taken[|w.taken| - 1]); }
    case Reply(until) => ReplyKeepsNewest(w, until);
    case Call =>
      assert w.held != [] ==> w.held[0] in w.held;
    case Acquire(token, ttlMs) => AcquireKeepsNewest(w, token, ttlMs);
    case _ =>
  }

  lemma {:induction false} PlayKeepsInv(w: World, es: seq<Event>)
    requires Inv(w)
    ensures Inv(Play(w, es))
    decreases |es|
  {
    if es != [] {
      StepKeepsKnown(w, es[0]);
      StepKeepsNewest(w, es[0]);
      PlayKeepsInv(Step(w, es[0]), es[1..]);
    }
  }

  /**
   * In every run, when a `releaseLock` frees a live lock of this process, that lock is the newest it
   * acquired, and every acquisition it ever made has had its own call or was pruned. So it comes before
   * some holder has made its call if and only if something was pruned.
   */
  lemma ReleaseFreesOnlyTheNewestLast(es: seq<Event>, token: Token)
    ensures var w := Play(START, es);
            token in w.freeing && Step(w, Script(token)).lock != w.lock ==>
              && w.taken != [] && token == w.taken[|w.taken| - 1] && HeldBy(w.lock, w.now, token)
              && w.calls + w.dropped == |w.taken|
              && (w.calls < |w.taken| <==> 0 < w.dropped)
  {
    PlayKeepsInv(START, es);
  }

  /** Another process takes and frees by the same rules. */
  lemma ForeignTakesAndFrees(w: World, token: Token, ttlMs: nat)
    requires !Live(w.lock, w.now) && FreshToken(w, token) && 0 < ttlMs
    ensures var taken := Step(w, ForeignAcquire(token, ttlMs));
            && HeldBy(taken.lock, w.now, token) && token in taken.foreign && taken.taken == w.taken
            && !Live(Step(taken, ForeignRelease(token)).lock, w.now)
  {
  }

  /** In a run the newest of this process's own is freed by its own turn: a call that finds only it remembered. */
  lemma LastCallFrees(w: World)
    requires |w.held| == 1 && HeldBy(w.lock, w.now, w.held[0].token) && w.held[0].token !in w.freeing
    ensures !Live(Step(Step(w, Call), Script(w.held[0].token)).lock, w.now)
  {
  }

  /** What another process took is never freed from here. */
  lemma ForeignLockUntouched(es: seq<Event>, token: Token)
    ensures var w := Play(START, es);
            Live(w.lock, w.now) && w.lock.value.token in w.foreign ==> Step(w, Script(token)).lock == w.lock
  {
    PlayKeepsInv(START, es);
  }

  /** Pruning by age forgets nothing live, as long as no lease is believed to end before it does. */
  lemma PruningForgetsOnlyTheDead(w: World, e: Remembered)
    requires e in w.held && e !in LiveOnly(w.held, w.now)
    requires w.lock.Some? && w.lock.value.token == e.token ==> w.lock.value.until <= e.until
    ensures !HeldBy(w.lock, w.now, e.token)
  {
  }

  /**
   * What pruning costs. The first holder overran its lease and its entry was pruned; the second took
   * over; the first holder's late call now frees the second holder's live lock.
   */
  lemma PrunedHolderFreesItsSuccessor()
    ensures
      var overrun := Step(Step(Step(START, Acquire("a", 10)), Reply(10)), Tick(20));
      var taken := Step(Step(Step(overrun, PruneStale), Acquire("b", 10)), Reply(30));
      var late := Step(taken, Call);
      HeldBy(late.lock, late.now, "b") && Step(late, Script("b")).lock == None && late.calls == 1 && late.dropped == 1
  {
    var overrun := Step(Step(Step(START, Acquire("a", 10)), Reply(10)), Tick(20));
    assert overrun.held == [Remembered("a", 10)];
    var taken := Step(Step(Step(overrun, PruneStale), Acquire("b", 10)), Reply(30));
    assert taken.held == [Remembered("b", 30)];
  }

  /** Without the pruning the same late call frees nothing. */
  lemma UnprunedHolderFreesNothing()
    ensures
      var overrun := Step(Step(Step(START, Acquire("a", 10)), Reply(10)), Tick(20));
      var taken := Step(Step(overrun, Acquire("b", 10)), Reply(30));
      var late := Step(taken, Call);
      late.freeing == {"a"} && Step(late, Script("a")).lock == late.lock && HeldBy(late.lock, late.now, "b")
  {
    var overrun := Step(Step(Step(START, Acquire("a", 10)), Reply(10)), Tick(20));
    assert overrun.held == [Remembered("a", 10)];
    var taken := Step(Step(overrun, Acquire("b", 10)), Reply(30));
    assert taken.held == [Remembered("a", 10), Remembered("b", 30)];
  }
}
