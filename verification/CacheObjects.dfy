/**
 The cache facade, the lock and the middlewares that use them, as objects. Each
 method is one uninterrupted turn of its coroutine; where the source waits, the
 method is handed the world as it is found afterwards.
 */
module CacheObjects {
  import opened Options
  import CS = CacheStore

  type Key = CS.Key
  type Value = CS.Value
  type Store = CS.Store

  /** The store and the clock, as a task finds them when it resumes. */
  datatype World = World(store: Store, now: int)

  predicate Taken(w: World, k: Key) {
    CS.Live(w.store, k, w.now)
  }

  class Cache {
    /** Whether the store brings its own set-if-absent and counters. */
    const native: bool

    var store: Store
    var now: int

    constructor (native: bool, world: World)
      ensures this.native == native && Sees() == world
    {
      this.native := native;
      store, now := world.store, world.now;
    }

    function Sees(): World
      reads this
    {
      World(store, now)
    }

    /** Other tasks run. */
    method Sleep(world: World)
      modifies this
      ensures Sees() == world
    {
      store, now := world.store, world.now;
    }

    method Get(k: Key) returns (v: Option<Value>)
      ensures v == CS.Get(store, k, now)
    {
      if k in store && (store[k].expires.None? || now < store[k].expires.value) {
        return Some(store[k].value);
      }
      v := None;
    }

    method Put(k: Key, v: Value, ttl: Option<int>)
      modifies this`store
      ensures store == CS.Put(old(store), k, v, ttl, now)
    {
      store := store[k := CS.Entry(v, if ttl.Some? then Some(now + ttl.value) else None)];
    }

    method Forget(k: Key)
      modifies this`store
      ensures store == CS.Forget(old(store), k)
    {
      store := store - {k};
    }

    method Has(k: Key) returns (there: bool)
      ensures there == CS.Live(store, k, now)
    {
      var v := Get(k);
      there := v.Some?;
    }

    /** The mutex makes the read and the write one turn. */
    method Add(k: Key, v: Value, ttl: Option<int>) returns (added: bool)
      modifies this`store
      ensures (added, store) == CS.Add(old(store), k, v, ttl, now)
    {
      var existing := Get(k);
      if existing.Some? {
        return false;
      }
      Put(k, v, ttl);
      added := true;
    }

    method Increment(k: Key, n: int, ttl: Option<int>) returns (r: Result<int, CS.CacheError>)
      modifies this`store
      ensures (r, store) == CS.Increment(native, old(store), k, n, ttl, now)
    {
      var current := Get(k);
      if current.Some? && !current.value.Number? {
        return Err(if native then CS.RefusedByStore else CS.NotAnInteger);
      }
      if current.None? {
        Put(k, CS.Number(n), ttl);
        return Ok(n);
      }
      var updated := current.value.n + n;
      if native {
        store := store[k := CS.Bumped(true, store[k], updated, ttl, now)];
      } else {
        Put(k, CS.Number(updated), None);
      }
      r := Ok(updated);
    }
  }

  datatype Attempt = Acquired | Refused | TimedOut | StillWaiting

  class CacheLock {
    const cache: Cache
    const key: Key
    const ttl: int
    const token: nat

    var held: bool

    constructor (cache: Cache, key: Key, ttl: int, token: nat)
      ensures this.cache == cache && this.key == key && this.ttl == ttl && this.token == token && !held
    {
      this.cache, this.key, this.ttl, this.token, held := cache, key, ttl, token, false;
    }

    /** The world at the `k`-th try: the first, or the one found after a sleep. */
    static function TryAt(first: World, wakeups: seq<World>, k: nat): World
      requires k <= |wakeups|
    {
      if k == 0 then first else wakeups[k - 1]
    }

    /** Try until the key is free, the caller does not want to wait, or the timeout
        is over; `tries` counts the sleeps in between. */
    method Acquire(blocking: bool, timeout: Option<int>, wakeups: seq<World>) returns (r: Attempt, tries: nat)
      modifies this`held, cache
      ensures tries <= |wakeups|
      ensures forall k | 0 <= k < tries ::
                blocking && Taken(TryAt(old(cache.Sees()), wakeups, k), key) &&
                (timeout.Some? ==> TryAt(old(cache.Sees()), wakeups, k).now < old(cache.now) + timeout.value)
      ensures var w := TryAt(old(cache.Sees()), wakeups, tries);
              cache.now == w.now &&
              match r
              case Acquired =>
                held && !Taken(w, key) && cache.store == CS.Put(w.store, key, CS.Token(token), Some(ttl), w.now)
              case Refused => held == old(held) && cache.store == w.store && Taken(w, key) && !blocking
              case TimedOut =>
                held == old(held) && cache.store == w.store && Taken(w, key) && blocking &&
                timeout.Some? && old(cache.now) + timeout.value <= w.now
              case StillWaiting =>
                held == old(held) && cache.store == w.store && Taken(w, key) && blocking && tries == |wakeups|
    {
      var start := cache.now;
      tries := 0;
      while true
        invariant tries <= |wakeups| && held == old(held)
        invariant cache.Sees() == TryAt(old(cache.Sees()), wakeups, tries)
        invariant forall k | 0 <= k < tries ::
                    blocking && Taken(TryAt(old(cache.Sees()), wakeups, k), key) &&
                    (timeout.Some? ==> TryAt(old(cache.Sees()), wakeups, k).now < start + timeout.value)
        decreases |wakeups| - tries
      {
        var added := cache.Add(key, CS.Token(token), Some(ttl));
        if added {
          held := true;
          return Acquired, tries;
        }
        if !blocking {
          return Refused, tries;
        }
        if timeout.Some? && cache.now >= start + timeout.value {
          return TimedOut, tries;
        }
        if tries == |wakeups| {
          return StillWaiting, tries;
        }
        cache.Sleep(wakeups[tries]);
        tries := tries + 1;
      }
    }

    /** Delete the key only if the token is still the stored one; `before` is the
        world at the delete, which follows the read in a turn of its own. */
    method Release(before: World)
      modifies this`held, cache
      ensures !held
      ensures if !old(held) then cache.Sees() == old(cache.Sees())
              else if CS.Get(old(cache.store), key, old(cache.now)) == Some(CS.Token(token)) then
                cache.Sees() == World(CS.Forget(before.store, key), before.now)
              else cache.Sees() == old(cache.Sees())
    {
      if !held {
        return;
      }
      var current := cache.Get(key);
      if current == Some(CS.Token(token)) {
        cache.Sleep(before);
        cache.Forget(key);
      }
      held := false;
    }
  }

  /** `WithoutOverlapping.handle`: the body runs iff the key was free, and `after`
      is the world when it ends, with or without an exception. */
  method HandleWithoutOverlapping(lock: CacheLock, after: World, atDelete: World) returns (ran: bool)
    requires !lock.held
    modifies lock`held, lock.cache
    ensures ran == !Taken(old(lock.cache.Sees()), lock.key) && !lock.held
    ensures !ran ==> lock.cache.Sees() == old(lock.cache.Sees())
    ensures ran && CS.Get(after.store, lock.key, after.now) == Some(CS.Token(lock.token)) ==>
              lock.cache.Sees() == World(CS.Forget(atDelete.store, lock.key), atDelete.now)
    ensures ran && CS.Get(after.store, lock.key, after.now) != Some(CS.Token(lock.token)) ==>
              lock.cache.Sees() == after
  {
    var r, tries := lock.Acquire(false, None, []);
    if r.Refused? {
      return false;
    }
    lock.cache.Sleep(after);
    lock.Release(atDelete);
    ran := true;
  }

  /** `ThrottleMiddleware.handle` and `RateLimited.handle`: bump the counter and let
      the call through while the count is within the limit, or when the facade finds
      something that is not a counter. A native store's own error is passed on. */
  method HandleRateLimited(cache: Cache, key: Key, limit: int, window: int) returns (r: Result<bool, CS.CacheError>)
    modifies cache`store
    ensures var (count, st) := CS.Increment(cache.native, old(cache.store), key, 1, Some(window), cache.now);
            cache.store == st &&
            match count
            case Ok(n) => r == Ok(n <= limit)
            case Err(NotAnInteger) => r == Ok(true)
            case Err(e) => r == Err(e)
  {
    var count := cache.Increment(key, 1, Some(window));
    if count.Err? {
      return if count.error.NotAnInteger? then Ok(true) else Err(count.error);
    }
    if count.value > limit {
      return Ok(false);
    }
    r := Ok(true);
  }
}
