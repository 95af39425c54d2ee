/**
 The fixed-window limiters: callers bump a shared counter and are admitted while
 the returned count is within the limit. The log records each completed increment
 with the time of its write, the count it returned, and whether it found no live
 counter, which is what opens a new lifetime. Where the key holds something else than
 a counter, the facade's error lets the call through uncounted, and that of a native
 store makes it fail.
 */
module RateLimit {
  import opened Arithmetic
  import opened Options
  import opened CacheStore

  datatype Hit = Hit(caller: nat, time: int, count: int, opening: bool)

  /** The critical section of the fallback increment. */
  datatype Section = Free | Entered(caller: nat) | Seen(caller: nat, value: Option<Value>)

  datatype Limiter = Limiter(
    native: bool, key: Key, window: int,
    store: Store, now: int, section: Section, log: seq<Hit>, uncounted: nat)

  datatype Step = Tick(d: nat) | HitNatively(caller: nat) | Enter(caller: nat) | Read | Write

  predicate Enabled(s: Limiter, e: Step) {
    match e
    case Tick(_) => true
    case HitNatively(_) => s.native
    case Enter(_) => !s.native && s.section.Free?
    case Read => s.section.Entered?
    case Write => s.section.Seen?
  }

  function Seeing(v: Option<Value>): Option<int> {
    match v
    case None => Some(0)
    case Some(Number(n)) => Some(n)
    case Some(_) => None
  }

  function Next(s: Limiter, e: Step): Limiter
    requires Enabled(s, e)
  {
    match e
    case Tick(d) => s.(now := s.now + d)
    case HitNatively(c) =>
      var (out, st) := Increment(true, s.store, s.key, 1, Some(s.window), s.now);
      if out.Err? then s
      else s.(store := st, log := s.log + [Hit(c, s.now, out.value, !Live(s.store, s.key, s.now))])
    case Enter(c) => s.(section := Entered(c))
    case Read => s.(section := Seen(s.section.caller, Get(s.store, s.key, s.now)))
    case Write =>
      match Seeing(s.section.value)
      case None => s.(section := Free, uncounted := s.uncounted + 1)
      case Some(n) =>
        var ttl := if s.section.value.None? then Some(s.window) else None;
        s.(store := Put(s.store, s.key, Number(n + 1), ttl, s.now),
           section := Free,
           log := s.log + [Hit(s.section.caller, s.now, n + 1, s.section.value.None?)])
  }

  /** Under the mutex, a read and a write with no step in between come to the same as
      the facade's increment: the same store, and the returned count in the log. */
  lemma {:induction false} FallbackHitIsIncrement(s: Limiter, c: nat)
    requires Enabled(s, Enter(c))
    ensures var end := Next(Next(Next(s, Enter(c)), Read), Write);
            var (count, st) := Increment(false, s.store, s.key, 1, Some(s.window), s.now);
            && end.store == st && end.section.Free? && end.now == s.now
            && (count.Ok? ==>
                  end.log == s.log + [Hit(c, s.now, count.value, !Live(s.store, s.key, s.now))] &&
                  end.uncounted == s.uncounted)
            && (count.Err? ==> end.log == s.log && end.uncounted == s.uncounted + 1)
  {
  }

  predicate Counting(store: Store, key: Key, now: int) {
    Live(store, key, now) && store[key].value.Number?
  }

  /** No counter is running yet; the key may hold something that is no counter. */
  predicate Initial(s: Limiter) {
    !Counting(s.store, s.key, s.now) && s.section.Free? && s.log == [] && s.uncounted == 0
  }

  /** The facade counts for itself, and the key holds a live value that is no counter. */
  predicate Foreign(s: Limiter) {
    !s.native && Live(s.store, s.key, s.now) && !s.store[s.key].value.Number?
  }

  // -------------------------------------------------------- lifetimes in a log

  /** The hit that opened the lifetime of hit `n`: the last one up to it that found no
      live counter. */
  function Opening(log: seq<Hit>, n: nat): (o: nat)
    requires n < |log|
    ensures o <= n
  {
    if n == 0 || log[n].opening then n else Opening(log, n - 1)
  }

  function OpenTime(log: seq<Hit>, n: nat): int
    requires n < |log|
  {
    log[Opening(log, n)].time
  }

  /** Counts run up from one in every lifetime, and lifetimes open a window apart. */
  ghost predicate Windowed(log: seq<Hit>, window: int) {
    && (log != [] ==> log[0].opening)
    && (forall i, j | 0 <= i < j < |log| :: log[i].time <= log[j].time)
    && (forall i {:trigger Opening(log, i)} | 0 <= i < |log| :: log[i].count == i - Opening(log, i) + 1)
    && (forall i, j {:trigger OpenTime(log, i), log[j]} | 0 <= i < j < |log| && log[j].opening ::
          OpenTime(log, i) + window <= log[j].time)
  }

  lemma {:induction false} OpeningOfPrefix(log: seq<Hit>, h: Hit, n: nat)
    requires n < |log|
    ensures Opening(log + [h], n) == Opening(log, n)
  {
    if n > 0 && !log[n].opening {
      OpeningOfPrefix(log, h, n - 1);
    }
  }

  /** The time at which the current lifetime ends at the earliest. */
  function Reopens(log: seq<Hit>, window: int): int
    requires log != []
  {
    OpenTime(log, |log| - 1) + window
  }

  /** What ties the stored counter and the open critical section to the log. */
  ghost predicate Tracked(s: Limiter) {
    && Windowed(s.log, s.window)
    && (s.log != [] ==> s.log[|s.log| - 1].time <= s.now)
    && (s.log == [] ==> !Counting(s.store, s.key, s.now))
    && (s.log != [] ==>
          && s.key in s.store && s.store[s.key].value == Number(s.log[|s.log| - 1].count)
          && (s.store[s.key].expires.Some? ==> Reopens(s.log, s.window) <= s.store[s.key].expires.value)
          && (s.native ==> s.store[s.key].expires.Some?))
    && (!s.section.Free? ==> !s.native)
    && (s.section.Seen? ==>
          match s.section.value
          case None => s.log == [] || Reopens(s.log, s.window) <= s.now
          case Some(Number(n)) => s.log != [] && n == s.log[|s.log| - 1].count
          case Some(_) => s.log == [])
  }

  lemma {:induction false} Grows(log: seq<Hit>, window: int, h: Hit)
    requires Windowed(log, window)
    ensures forall i | 0 <= i < |log| :: Opening(log + [h], i) == Opening(log, i)
  {
    forall i | 0 <= i < |log| ensures Opening(log + [h], i) == Opening(log, i) {
      OpeningOfPrefix(log, h, i);
    }
  }

  /** A hit that continues the current lifetime. */
  lemma {:induction false} Continues(log: seq<Hit>, window: int, h: Hit)
    requires Windowed(log, window) && log != []
    requires log[|log| - 1].time <= h.time && h.count == log[|log| - 1].count + 1 && !h.opening
    ensures Windowed(log + [h], window) && Reopens(log + [h], window) == Reopens(log, window)
  {
    var log' := log + [h];
    Grows(log, window, h);
    assert log[|log| - 1].count == |log| - 1 - Opening(log, |log| - 1) + 1;
    assert Opening(log', |log|) == Opening(log', |log| - 1);
    forall i, j | 0 <= i < j < |log'| && log'[j].opening
      ensures OpenTime(log', i) + window <= log'[j].time
    {
      assert OpenTime(log, i) + window <= log[j].time;
    }
  }

  lemma {:induction false} OpeningMonotone(log: seq<Hit>, i: nat, n: nat)
    requires i <= n < |log|
    ensures Opening(log, i) <= Opening(log, n)
  {
    if i < n {
      OpeningMonotone(log, i, n - 1);
    }
  }

  /** A hit that opens a new lifetime. */
  lemma {:induction false} Opens(log: seq<Hit>, window: int, h: Hit)
    requires Windowed(log, window) && h.count == 1 && h.opening
    requires log != [] ==> log[|log| - 1].time <= h.time && Reopens(log, window) <= h.time
    ensures Windowed(log + [h], window) && Reopens(log + [h], window) == h.time + window
  {
    var log' := log + [h];
    Grows(log, window, h);
    forall i, j | 0 <= i < j < |log'| && log'[j].opening
      ensures OpenTime(log', i) + window <= log'[j].time
    {
      if j < |log| {
        assert OpenTime(log, i) + window <= log[j].time;
      } else {
        OpeningMonotone(log, i, |log| - 1);
      }
    }
  }

  lemma {:induction false} NativeHitKeepsTracked(s: Limiter, c: nat)
    requires s.native && Tracked(s)
    ensures Tracked(Next(s, HitNatively(c)))
  {
    var s' := Next(s, HitNatively(c));
    if Counting(s.store, s.key, s.now) {
      Continues(s.log, s.window, Hit(c, s.now, s.log[|s.log| - 1].count + 1, false));
    } else if !Live(s.store, s.key, s.now) {
      Opens(s.log, s.window, Hit(c, s.now, 1, true));
    }
  }

  lemma {:induction false} WriteKeepsTracked(s: Limiter)
    requires s.section.Seen? && Tracked(s)
    ensures Tracked(Next(s, Write))
  {
    if s.section.value.Some? && s.section.value.value.Number? {
      Continues(s.log, s.window, Hit(s.section.caller, s.now, s.log[|s.log| - 1].count + 1, false));
    } else if s.section.value.None? {
      Opens(s.log, s.window, Hit(s.section.caller, s.now, 1, true));
    }
  }

  lemma {:induction false} StepKeepsTracked(s: Limiter, e: Step)
    requires Enabled(s, e) && Tracked(s)
    ensures Tracked(Next(s, e))
  {
    match e
    case HitNatively(c) => NativeHitKeepsTracked(s, c);
    case Write => WriteKeepsTracked(s);
    case Tick(_) =>
    case Enter(_) =>
    case Read =>
  }

  // ----------------------------------------------------------- whole runs

  ghost predicate Leads(s: Limiter, e: Step, s': Limiter) {
    Enabled(s, e) && s' == Next(s, e)
  }

  ghost predicate IsRun(ss: seq<Limiter>, es: seq<Step>) {
    |ss| == |es| + 1 && Initial(ss[0]) &&
    forall k, n | 0 <= k < |es| && n == k + 1 :: Leads(ss[k], es[k], ss[n])
  }

  lemma {:induction false} RunIsTracked(ss: seq<Limiter>, es: seq<Step>, i: nat)
    requires IsRun(ss, es) && i <= |es|
    ensures Tracked(ss[i]) && ss[i].window == ss[0].window && ss[i].native == ss[0].native
    decreases i
  {
    if i > 0 {
      RunIsTracked(ss, es, i - 1);
      assert Leads(ss[i - 1], es[i - 1], ss[i]);
      StepKeepsTracked(ss[i - 1], es[i - 1]);
    }
  }

  predicate Admitted(h: Hit, limit: int) {
    h.count <= limit
  }

  lemma {:induction false} OpeningOpens(log: seq<Hit>, n: nat)
    requires n < |log| && log[0].opening
    ensures log[Opening(log, n)].opening && forall k | Opening(log, n) < k <= n :: !log[k].opening
  {
    if n > 0 && !log[n].opening {
      OpeningOpens(log, n - 1);
    }
  }

  /** Exactly the first `limit` hits of a counter's lifetime are admitted, however
      the callers interleave. */
  lemma {:induction false} FirstHitsAreAdmitted(ss: seq<Limiter>, es: seq<Step>, i: nat, n: nat, limit: int)
    requires IsRun(ss, es) && i <= |es| && n < |ss[i].log|
    ensures ss[i].log[Opening(ss[i].log, n)].opening
    ensures Admitted(ss[i].log[n], limit) <==> n - Opening(ss[i].log, n) < limit
  {
    RunIsTracked(ss, es, i);
    assert ss[i].log[n].count == n - Opening(ss[i].log, n) + 1;
    OpeningOpens(ss[i].log, n);
  }

  /** Admissions of the first `n` hits in the half-open interval of one window from `x`. */
  function AdmittedIn(log: seq<Hit>, n: nat, limit: int, x: int, window: int): nat
    requires n <= |log|
  {
    if n == 0 then 0
    else
      AdmittedIn(log, n - 1, limit, x, window) +
      (if x <= log[n - 1].time < x + window && Admitted(log[n - 1], limit) then 1 else 0)
  }

  lemma {:induction false} NoneBefore(log: seq<Hit>, n: nat, limit: int, x: int, window: int)
    requires n <= |log| && forall k | 0 <= k < n :: log[k].time < x
    ensures AdmittedIn(log, n, limit, x, window) == 0
  {
    if n > 0 {
      NoneBefore(log, n - 1, limit, x, window);
    }
  }

  function Cap(k: int, limit: int): nat {
    AtLeast0(if k < limit then k else limit)
  }

  /** How many admissions the interval can hold, by where the latest opening lies. */
  function Bound(log: seq<Hit>, n: nat, limit: int, x: int, window: int): nat
    requires 0 < n <= |log|
  {
    var o := Opening(log, n - 1);
    if log[o].time < x then AtLeast0(Cap(n - o, limit) - 1)
    else if log[o].time < x + window then AtLeast0(limit - 1) + Cap(n - o, limit)
    else AtLeast0(2 * limit - 1)
  }

  lemma {:induction false} AdmissionsStayBounded(log: seq<Hit>, n: nat, limit: int, x: int, window: int)
    requires Windowed(log, window) && 0 < n <= |log|
    ensures AdmittedIn(log, n, limit, x, window) <= Bound(log, n, limit, x, window)
  {
    var h := log[n - 1];
    if n > 1 {
      AdmissionsStayBounded(log, n - 1, limit, x, window);
    }
    if n > 1 && h.opening {
      var o := Opening(log, n - 2);
      assert OpenTime(log, n - 2) + window <= h.time;
      if h.time < x {
        NoneBefore(log, n - 1, limit, x, window);
      }
    }
  }

  /** Over any run, no half-open interval of one window admits `2 * limit` counted calls. */
  lemma {:induction false} IntervalBound(ss: seq<Limiter>, es: seq<Step>, i: nat, limit: int, x: int)
    requires IsRun(ss, es) && i <= |es|
    ensures AdmittedIn(ss[i].log, |ss[i].log|, limit, x, ss[i].window) <= AtLeast0(2 * limit - 1)
  {
    RunIsTracked(ss, es, i);
    if ss[i].log != [] {
      AdmissionsStayBounded(ss[i].log, |ss[i].log|, limit, x, ss[i].window);
    }
  }

  // ------------------------------------------------------ the native window

  /** Hit `n` opens a new lifetime exactly if it comes a window or more after the opening
      of the hit before. */
  predicate OpensOnTime(log: seq<Hit>, window: int, n: nat)
    requires 0 < n < |log|
  {
    log[n].opening <==> OpenTime(log, n - 1) + window <= log[n].time
  }

  ghost predicate Exact(log: seq<Hit>, window: int) {
    forall n: nat {:trigger OpensOnTime(log, window, n)} | 0 < n < |log| :: OpensOnTime(log, window, n)
  }

  ghost predicate ExactlyTracked(s: Limiter) {
    && Tracked(s) && Exact(s.log, s.window)
    && (s.log != [] ==> s.store[s.key].expires == Some(Reopens(s.log, s.window)))
  }

  lemma {:induction false} ExactGrows(log: seq<Hit>, window: int, h: Hit)
    requires Exact(log, window) && (log != [] ==> (h.opening <==> Reopens(log, window) <= h.time))
    ensures Exact(log + [h], window)
  {
    var log' := log + [h];
    forall n: nat | 0 < n < |log'| ensures OpensOnTime(log', window, n) {
      OpeningOfPrefix(log, h, n - 1);
      if n < |log| {
        assert OpensOnTime(log, window, n);
      }
    }
  }

  lemma {:induction false} NativeHitKeepsExact(s: Limiter, c: nat)
    requires s.native && ExactlyTracked(s)
    ensures ExactlyTracked(Next(s, HitNatively(c)))
  {
    NativeHitKeepsTracked(s, c);
    var opening := !Live(s.store, s.key, s.now);
    if Counting(s.store, s.key, s.now) {
      var h := Hit(c, s.now, s.log[|s.log| - 1].count + 1, false);
      assert Next(s, HitNatively(c)).log == s.log + [h];
      ExactGrows(s.log, s.window, h);
      Continues(s.log, s.window, h);
    } else if opening {
      var h := Hit(c, s.now, 1, true);
      assert Next(s, HitNatively(c)).log == s.log + [h];
      ExactGrows(s.log, s.window, h);
      Opens(s.log, s.window, h);
    }
  }

  lemma {:induction false} NativeWindowsAreExact(ss: seq<Limiter>, es: seq<Step>, i: nat)
    requires IsRun(ss, es) && i <= |es| && ss[0].native
    ensures ExactlyTracked(ss[i]) && ss[i].native
    decreases i
  {
    if i > 0 {
      NativeWindowsAreExact(ss, es, i - 1);
      RunIsTracked(ss, es, i);
      assert Leads(ss[i - 1], es[i - 1], ss[i]);
      if es[i - 1].HitNatively? {
        NativeHitKeepsExact(ss[i - 1], es[i - 1].caller);
      }
    }
  }

  /** Over any run with native counters, a call opens a new window exactly if it comes a
      window or more after the call that opened the last one. */
  lemma {:induction false} NativeWindowReopensIff(ss: seq<Limiter>, es: seq<Step>, i: nat, n: nat)
    requires IsRun(ss, es) && i <= |es| && ss[0].native && 0 < n < |ss[i].log|
    ensures ss[i].log[n].opening <==> OpenTime(ss[i].log, n - 1) + ss[0].window <= ss[i].log[n].time
  {
    NativeWindowsAreExact(ss, es, i);
    RunIsTracked(ss, es, i);
    assert OpensOnTime(ss[i].log, ss[i].window, n);
  }

  // ----------------------------------------------------------- foreign values

  /** Without a foreign value at the start there never is one, and every call counts. */
  lemma {:induction false} EveryCallCounts(ss: seq<Limiter>, es: seq<Step>, i: nat)
    requires IsRun(ss, es) && i <= |es| && !Foreign(ss[0])
    ensures ss[i].uncounted == 0 && !Foreign(ss[i])
    ensures ss[i].native == ss[0].native && (!ss[i].section.Free? ==> !ss[i].native)
    ensures ss[i].section.Seen? && ss[i].section.value.Some? ==> ss[i].section.value.value.Number?
    decreases i
  {
    if i > 0 {
      EveryCallCounts(ss, es, i - 1);
      assert Leads(ss[i - 1], es[i - 1], ss[i]);
    }
  }

  lemma {:induction false} Extended(ss: seq<Limiter>, es: seq<Step>, e: Step, s': Limiter)
    returns (ss': seq<Limiter>, es': seq<Step>)
    requires IsRun(ss, es) && Leads(ss[|es|], e, s')
    ensures IsRun(ss', es') && ss'[0] == ss[0] && ss'[|es'|] == s'
  {
    ss', es' := ss + [s'], es + [e];
    forall k, n | 0 <= k < |es'| && n == k + 1 ensures Leads(ss'[k], es'[k], ss'[n]) {
      if n <= |es| {
        assert Leads(ss[k], es[k], ss[n]);
      }
    }
  }

  /** With a foreign value, any number of calls is let through before the clock moves on. */
  lemma {:induction false} ForeignValueAdmitsAll(s: Limiter, n: nat) returns (ss: seq<Limiter>, es: seq<Step>)
    requires Initial(s) && Foreign(s)
    ensures IsRun(ss, es) && ss[0] == s && ss[|es|] == s.(uncounted := n)
  {
    if n == 0 {
      ss, es := [s], [];
    } else {
      ss, es := ForeignValueAdmitsAll(s, n - 1);
      var before, after := s.(uncounted := n - 1), s.(uncounted := n);
      var entered := before.(section := Entered(0));
      var seen := before.(section := Seen(0, Get(s.store, s.key, s.now)));
      ss, es := Extended(ss, es, Enter(0), entered);
      ss, es := Extended(ss, es, Read, seen);
      ss, es := Extended(ss, es, Write, after);
    }
  }

  /** Every call that is let through is counted, and so falls under the bound, in every run
      exactly if the facade does not find a foreign value when the limiter starts. */
  lemma {:induction false} EveryCallCountsIff(s: Limiter)
    requires Initial(s)
    ensures (forall ss: seq<Limiter>, es | IsRun(ss, es) && ss[0] == s :: ss[|es|].uncounted == 0) <==> !Foreign(s)
  {
    if Foreign(s) {
      var ss, es := ForeignValueAdmitsAll(s, 1);
      assert IsRun(ss, es) && ss[|es|].uncounted == 1;
    } else {
      forall ss: seq<Limiter>, es | IsRun(ss, es) && ss[0] == s ensures ss[|es|].uncounted == 0 {
        EveryCallCounts(ss, es, |es|);
      }
    }
  }

  // ------------------------------------------------ the fallback's long window

  ghost predicate Sticky(s: Limiter) {
    && (s.log != [] && !s.log[|s.log| - 1].opening ==>
          s.key in s.store && s.store[s.key].expires.None? && (s.section.Seen? ==> s.section.value.Some?))
    && (forall i, j | 0 <= i < j < |s.log| && j == i + 1 && s.log[j].opening :: s.log[i].opening)
  }

  lemma {:induction false} StepKeepsSticky(s: Limiter, e: Step)
    requires Enabled(s, e) && !s.native && Tracked(s) && Sticky(s)
    ensures Sticky(Next(s, e))
  {
    if s.log != [] {
      assert s.log[|s.log| - 1].count == |s.log| - Opening(s.log, |s.log| - 1);
    }
  }

  /** Without a native increment the window reopens only after a lifetime of one
      single hit: a second hit drops the expiry, and counts run up for ever. */
  lemma {:induction false} FallbackReopensOnlyAfterOneHit(ss: seq<Limiter>, es: seq<Step>, i: nat)
    requires IsRun(ss, es) && i <= |es| && !ss[0].native
    ensures Sticky(ss[i])
    decreases i
  {
    if i > 0 {
      FallbackReopensOnlyAfterOneHit(ss, es, i - 1);
      RunIsTracked(ss, es, i - 1);
      assert Leads(ss[i - 1], es[i - 1], ss[i]);
      StepKeepsSticky(ss[i - 1], es[i - 1]);
    }
  }
}
