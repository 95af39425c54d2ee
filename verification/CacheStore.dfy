/** The key-value store under the cache: entries that expire, and the operations on values. */
module CacheStore {
  import opened Options

  type Key = string

  datatype Value = Number(n: int) | Token(owner: nat) | Payload(id: int)

  /** An entry without expiry lives until it is forgotten. */
  datatype Entry = Entry(value: Value, expires: Option<int>)

  type Store = map<Key, Entry>

  predicate Fresh(e: Entry, now: int) {
    e.expires.Some? ==> now < e.expires.value
  }

  predicate Live(s: Store, k: Key, now: int) {
    k in s && Fresh(s[k], now)
  }

  function Get(s: Store, k: Key, now: int): Option<Value> {
    if Live(s, k, now) then Some(s[k].value) else None
  }

  function Put(s: Store, k: Key, v: Value, ttl: Option<int>, now: int): Store {
    s[k := Entry(v, if ttl.Some? then Some(now + ttl.value) else None)]
  }

  function Forget(s: Store, k: Key): Store {
    s - {k}
  }

  /** Set-if-absent, in one piece: whether the value was stored, and the store after it. */
  function Add(s: Store, k: Key, v: Value, ttl: Option<int>, now: int): (bool, Store) {
    if Live(s, k, now) then (false, s) else (true, Put(s, k, v, ttl, now))
  }

  /** The facade's own error for a value that is no integer, and a native store's. */
  datatype CacheError = NotAnInteger | RefusedByStore

  /** The entry after one more hit. The native operation keeps a running expiry and
      seeds a missing one; the fallback passes a ttl only when it creates the key. */
  function Bumped(native: bool, e: Entry, n: int, ttl: Option<int>, now: int): Entry {
    Entry(Number(n),
          if !native then None
          else if e.expires.Some? || ttl.None? then e.expires
          else Some(now + ttl.value))
  }

  /** Add to a counter in one piece; a missing key counts as zero. */
  function Increment(native: bool, s: Store, k: Key, n: int, ttl: Option<int>, now: int):
    (Result<int, CacheError>, Store)
  {
    if !Live(s, k, now) then (Ok(n), Put(s, k, Number(n), ttl, now))
    else if !s[k].value.Number? then (Err(if native then RefusedByStore else NotAnInteger), s)
    else (Ok(s[k].value.n + n), s[k := Bumped(native, s[k], s[k].value.n + n, ttl, now)])
  }

  // ------------------------------------------------------- what a reader finds

  /** A value is found from its put until its ttl has passed, or for good without one; it
      hides what was there before, and no other key is affected. */
  lemma {:induction false} PutLasts(s: Store, k: Key, v: Value, ttl: Option<int>, now: int, x: Key, t: int)
    ensures Get(Put(s, k, v, ttl, now), x, t) ==
              if x != k then Get(s, x, t)
              else if ttl.None? || t < now + ttl.value then Some(v) else None
  {
  }

  lemma {:induction false} ForgottenIsGone(s: Store, k: Key, x: Key, t: int)
    ensures Get(Forget(s, k), x, t) == if x == k then None else Get(s, x, t)
  {
  }

  /** Set-if-absent stores exactly if nothing is found, and then for the ttl; otherwise
      it changes nothing. */
  lemma {:induction false} AddStoresIff(s: Store, k: Key, v: Value, ttl: Option<int>, now: int, x: Key, t: int)
    ensures var (added, s') := Add(s, k, v, ttl, now);
            && (added <==> Get(s, k, now) == None)
            && (!added ==> s' == s)
            && (added ==> Get(s', x, t) == if x != k then Get(s, x, t)
                                           else if ttl.None? || t < now + ttl.value then Some(v) else None)
  {
  }

  /** When a running counter ends: natively a missing expiry is seeded, a given one kept. */
  function EndOf(e: Entry, ttl: Option<int>, now: int): Option<int> {
    if e.expires.Some? then e.expires else if ttl.Some? then Some(now + ttl.value) else None
  }

  /** An increment adds the given amount to the number found, or to nothing, returns the
      sum and leaves it to be found: a new counter for the ttl, one that is there as long
      as its expiry lasts natively, and for good on the fallback path. What is no number
      is refused and stays. */
  lemma {:induction false} IncrementAdds(
    native: bool, s: Store, k: Key, n: int, ttl: Option<int>, now: int, x: Key, t: int)
    ensures var (r, s') := Increment(native, s, k, n, ttl, now);
            match Get(s, k, now)
            case None =>
              r == Ok(n) &&
              Get(s', x, t) == (if x != k then Get(s, x, t)
                                else if ttl.None? || t < now + ttl.value then Some(Number(n)) else None)
            case Some(Number(m)) =>
              r == Ok(m + n) &&
              Get(s', x, t) == (if x != k then Get(s, x, t)
                                else if !native || EndOf(s[k], ttl, now).None? || t < EndOf(s[k], ttl, now).value
                                then Some(Number(m + n)) else None)
            case Some(_) => r == Err(if native then RefusedByStore else NotAnInteger) && s' == s
  {
  }

  /** A repeat hit leaves the expiry alone, as promised for every store, exactly when
      the store increments natively and an expiry (or no ttl) is there, or when the
      fallback had no expiry to lose. */
  lemma {:induction false} RepeatHitKeepsExpiryIff(native: bool, s: Store, k: Key, n: int, ttl: Option<int>, now: int)
    requires Live(s, k, now) && s[k].value.Number?
    ensures Increment(native, s, k, n, ttl, now).1[k].expires == s[k].expires <==>
              if native then s[k].expires.Some? || ttl.None? else s[k].expires.None?
  {
  }

  /** A fresh key is hit at time 0 and again at time 1. */
  function TwoHits(native: bool, k: Key, window: int): Store {
    Increment(native, Increment(native, map[], k, 1, Some(window), 0).1, k, 1, Some(window), 1).1
  }

  /** Two hits on a fresh key: natively the window of 60 stands, on the fallback path the
      second hit makes the counter permanent. */
  lemma {:induction false} FallbackHitDropsExpiry()
    ensures var native, fallback := TwoHits(true, "k", 60), TwoHits(false, "k", 60);
            native == map["k" := Entry(Number(2), Some(60))] && fallback == map["k" := Entry(Number(2), None)]
  {
    var first := map["k" := Entry(Number(1), Some(60))];
    assert Increment(true, map[], "k", 1, Some(60), 0).1 == first;
    assert Increment(false, map[], "k", 1, Some(60), 0).1 == first;
  }
}
