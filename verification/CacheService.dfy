/**
 * `CacheService` (packages/platform-cache/src/cache.service.ts): the keys it edits in the store and the
 * locks one process remembers, in place. The clock (`now`, milliseconds) and the random tokens are inputs.
 */
module CacheService {
  import opened Common
  import R = RateLimit
  import K = Locks

  datatype RateResult = RateResult(allowed: bool, remaining: int, resetAt: int, id: Option<string>) | Failed

  /** What `tryLock` hands out: its own token, and whether it has been released once. */
  class CacheLock {
    const key: string
    const token: string
    var released: bool

    constructor (key: string, token: string)
      ensures this.key == key && this.token == token && !released
    {
      this.key, this.token, released := key, token, false;
    }
  }

  class CacheService {
    const connected: bool
    var zsets: map<string, R.ZSet>
    var locks: map<string, K.Lock>
    var held: map<string, seq<K.Remembered>>

    constructor (connected: bool)
      ensures this.connected == connected && zsets == map[] && locks == map[] && held == map[]
    {
      this.connected := connected;
      zsets, locks, held := map[], map[], map[];
    }

    ghost function ZSet(key: string): Option<R.ZSet> reads this {
      if key in zsets then Some(zsets[key]) else None
    }

    ghost function Lock(key: string): Option<K.Lock> reads this {
      if key in locks then Some(locks[key]) else None
    }

    function HeldFor(key: string): seq<K.Remembered> reads this {
      if key in held then held[key] else []
    }

    // ---- rate limit ----

    /** Fails open without a cache; otherwise one atomic evaluation of the sliding-window script. */
    method ConsumeRateLimit(key: string, limit: int, windowSeconds: int, now: nat, member: string)
      returns (r: RateResult)
      modifies this`zsets
      ensures !connected ==> zsets == old(zsets) && r == RateResult(true, limit, now / 1000 + windowSeconds, None)
      ensures forall k :: k != key ==> ZSet(k) == old(ZSet(k))
      ensures connected ==>
        var window := windowSeconds * 1000;
        && ZSet(key) == R.AfterConsume(old(ZSet(key)), now, window, limit, member)
        && match R.AnswerOf(R.Pruned(old(ZSet(key)), now, window), now, window, limit)
           case Admitted(remaining, reset) => r == RateResult(true, remaining, R.ResetSeconds(reset), Some(member))
           case Refused(reset) => r == RateResult(false, 0, R.ResetSeconds(reset), None)
           case ScriptError => r == Failed
      // What the numbers mean: `remaining` further requests would be admitted now, and from `resetAt` on this one no
      // longer counts; a refusal's `resetAt` is not a second too early.
      ensures connected && r.RateResult? && r.allowed && 0 < windowSeconds &&
              member !in R.Pruned(old(ZSet(key)), now, windowSeconds * 1000) ==>
        && R.AdmitsExactly(ZSet(key), now, windowSeconds * 1000, limit, r.remaining)
        && forall s :: now <= s * 1000 ==>
             (member in R.Pruned(ZSet(key), s * 1000, windowSeconds * 1000) <==> s < r.resetAt)
      ensures connected && r.RateResult? && !r.allowed && R.Outlives(old(ZSet(key)), now, windowSeconds * 1000) ==>
        forall s :: now <= s * 1000 && s < r.resetAt ==>
          var window := windowSeconds * 1000;
          !R.AnswerOf(R.Pruned(ZSet(key), s * 1000, window), s * 1000, window, limit).Admitted?
    {
      if !connected { return RateResult(true, limit, now / 1000 + windowSeconds, None); }
      var window := windowSeconds * 1000;
      var kept := R.Pruned(if key in zsets then Some(zsets[key]) else None, now, window);
      ghost var z := ZSet(key);
      if |kept| < limit {
        if 0 < window && member !in kept { R.AdmissionAnswersAreExact(z, now, window, limit, member); }
        zsets := zsets[key := R.ZSet(kept[member := now], now + window)];
        return RateResult(true, Max(0, limit - |kept| - 1), R.ResetSeconds(now + window), Some(member));
      }
      if kept == map[] {
        zsets := zsets - {key};
        return Failed;
      }
      if R.Outlives(z, now, window) { R.RefusalAnswersAreExact(z, now, window, limit, member); }
      zsets := zsets[key := zsets[key].(scores := kept)];
      r := RateResult(false, 0, R.ResetSeconds(R.Oldest(kept) + window), None);
    }

    /** Gives back exactly the slot `id`; a slot already gone is a no-op. */
    method RefundRateLimit(key: string, id: string)
      modifies this`zsets
      ensures ZSet(key) == if connected then R.AfterRefund(old(ZSet(key)), id) else old(ZSet(key))
      ensures forall k :: k != key ==> ZSet(k) == old(ZSet(k))
    {
      if connected && key in zsets {
        zsets := zsets[key := zsets[key].(scores := zsets[key].scores - {id})];
      }
    }

    // ---- locks ----

    /** `None` when the lock is held or there is no cache; an invalid lease is an error. */
    method TryLock(key: string, ttlMs: int, now: int, token: string) returns (rangeError: bool, lock: Option<CacheLock>)
      modifies this`locks
      ensures rangeError <==> ttlMs <= 0
      ensures lock.Some? <==> !rangeError && connected && !K.Live(old(Lock(key)), now)
      ensures lock.Some? ==> forall t :: now <= t ==> (K.HeldBy(Lock(key), t, token) <==> t < now + ttlMs)
      ensures lock.Some? ==>
        fresh(lock.value) && lock.value.key == key && lock.value.token == token && !lock.value.released
      ensures Lock(key) == if rangeError || !connected then old(Lock(key))
                           else K.AfterTryLock(old(Lock(key)), now, ttlMs, token)
      ensures forall k :: k != key ==> Lock(k) == old(Lock(k))
    {
      if ttlMs <= 0 { return true, None; }
      if !connected || (key in locks && now < locks[key].until) { return false, None; }
      locks := locks[key := K.Lock(token, now + ttlMs)];
      var handle := new CacheLock(key, token);
      return false, Some(handle);
    }

    /** Frees the lock only while it still holds this handle's token, and only once per handle. */
    method Release(lock: CacheLock, now: int) returns (freed: bool)
      modifies this`locks, lock`released
      ensures freed <==> !old(lock.released) && connected && K.HeldBy(old(Lock(lock.key)), now, lock.token)
      ensures Lock(lock.key) == if old(lock.released) || !connected then old(Lock(lock.key))
                                else K.AfterRelease(old(Lock(lock.key)), now, lock.token)
      ensures if freed then !K.Live(Lock(lock.key), now) else Lock(lock.key) == old(Lock(lock.key))
      ensures forall k :: k != lock.key ==> Lock(k) == old(Lock(k))
      ensures lock.released == (old(lock.released) || connected)
    {
      if lock.released || !connected { return false; }
      lock.released := true;
      freed := DeleteIfMine(lock.key, lock.token, now);
    }

    /** Pushes the lease out only while the lock holds this handle's token. */
    method Extend(lock: CacheLock, ms: int, now: int) returns (rangeError: bool, extended: bool)
      modifies this`locks
      ensures rangeError <==> ms <= 0
      ensures extended <==> !rangeError && !lock.released && connected && K.HeldBy(old(Lock(lock.key)), now, lock.token)
      ensures extended ==> forall t :: now <= t ==> (K.HeldBy(Lock(lock.key), t, lock.token) <==> t < now + ms)
      ensures !extended ==> Lock(lock.key) == old(Lock(lock.key))
      ensures Lock(lock.key) == if rangeError || lock.released || !connected then old(Lock(lock.key))
                                else K.AfterExtend(old(Lock(lock.key)), now, lock.token, ms)
      ensures forall k :: k != lock.key ==> Lock(k) == old(Lock(k))
    {
      if ms <= 0 { return true, false; }
      if lock.released || !connected { return false, false; }
      extended := lock.key in locks && now < locks[lock.key].until && locks[lock.key].token == lock.token;
      if extended {
        locks := locks[lock.key := locks[lock.key].(until := now + ms)];
      }
      rangeError := false;
    }

    method DeleteIfMine(key: string, token: string, now: int) returns (freed: bool)
      modifies this`locks
      ensures freed == K.HeldBy(old(Lock(key)), now, token)
      ensures Lock(key) == K.AfterRelease(old(Lock(key)), now, token)
      ensures forall k :: k != key ==> Lock(k) == old(Lock(k))
    {
      freed := key in locks && now < locks[key].until && locks[key].token == token;
      if freed {
        locks := locks - {key};
      }
    }

    /** Every list of `remembered` with its stale entries filtered out, empty lists removed. */
    static ghost function StaleGone(remembered: map<string, seq<K.Remembered>>, now: int)
      : map<string, seq<K.Remembered>>
    {
      map k | k in remembered && K.LiveOnly(remembered[k], now) != [] :: K.LiveOnly(remembered[k], now)
    }

    method DropStale(now: int)
      modifies this`held
      ensures held == StaleGone(old(held), now)
    {
      var todo := held.Keys;
      while todo != {}
        invariant todo <= old(held).Keys && todo <= held.Keys
        invariant forall k :: k in todo ==> held[k] == old(held)[k]
        invariant forall k :: k in held <==> k in todo || k in StaleGone(old(held), now)
        invariant forall k :: k in held && k !in todo ==> held[k] == StaleGone(old(held), now)[k]
        decreases todo
      {
        var k :| k in todo;
        var live := K.LiveOnly(held[k], now);
        held := if live == [] then held - {k} else held[k := live];
        todo := todo - {k};
      }
    }

    /** Takes the lock and remembers its token; with 1000 keys remembered, stale ones are dropped first. */
    method AcquireLock(key: string, ttlMs: int, now: int, token: string) returns (rangeError: bool, acquired: bool)
      modifies this`locks, this`held
      ensures rangeError <==> ttlMs <= 0
      ensures acquired <==> !rangeError && connected && !K.Live(old(Lock(key)), now)
      ensures Lock(key) == if rangeError || !connected then old(Lock(key))
                           else K.AfterTryLock(old(Lock(key)), now, ttlMs, token)
      ensures forall k :: k != key ==> Lock(k) == old(Lock(k))
      ensures !acquired ==> held == old(held)
      ensures acquired ==>
        var kept := if 1000 <= |old(held)| then StaleGone(old(held), now) else old(held);
        held == kept[key := K.Remember(if key in kept then kept[key] else [], K.Remembered(token, now + ttlMs))]
    {
      var lock;
      rangeError, lock := TryLock(key, ttlMs, now, token);
      acquired := lock.Some?;
      if !acquired { return; }
      if K.PRUNE_AT <= |held| { DropStale(now); }
      var entries := HeldFor(key) + [K.Remembered(token, now + ttlMs)];
      if K.MAX_REMEMBERED < |entries| { entries := entries[1..]; }
      held := held[key := entries];
    }

    /** Consumes the OLDEST remembered token of the key, and deletes the lock only if it holds it. */
    method ReleaseLock(key: string, now: int)
      modifies this`locks, this`held
      ensures old(HeldFor(key)) == [] ==> held == old(held) && locks == old(locks)
      ensures old(HeldFor(key)) != [] ==>
        && HeldFor(key) == old(HeldFor(key))[1..]
        && Lock(key) == if connected then K.AfterRelease(old(Lock(key)), now, old(HeldFor(key))[0].token)
                        else old(Lock(key))
      ensures forall k :: k != key ==> Lock(k) == old(Lock(k)) && HeldFor(k) == old(HeldFor(k))
      ensures (forall k :: k in old(held) ==> old(held)[k] != []) ==> forall k :: k in held ==> held[k] != []
    {
      var entries := HeldFor(key);
      if entries == [] { return; }
      held := if |entries| == 1 then held - {key} else held[key := entries[1..]];
      if connected {
        var freed := DeleteIfMine(key, entries[0].token, now);
      }
    }
  }
}
