/** The autoscaler over whole runs of ticks. */
module SupervisorRuns {
  import opened Arithmetic
  import opened Options
  import opened Supervisor

  /** One tick: the clock, the queue's depth, the pool as it is found, and the decision. */
  datatype Tick = Tick(now: int, depth: nat, found: Pool, action: Action)

  /** Workers may finish on their own between ticks; nothing else changes. */
  ghost predicate Decays(p: Pool, q: Pool) {
    && q == p.(workers := q.workers) && |q.workers| == |p.workers|
    && forall i | 0 <= i < |p.workers| :: q.workers[i].id == p.workers[i].id
  }

  ghost predicate Leads(c: Config, p: Pool, t: Tick, p': Pool) {
    Decays(p, t.found) && Reconcile(c, t.found, t.depth, t.now) == (p', t.action)
  }

  ghost predicate IsRun(c: Config, ps: seq<Pool>, ts: seq<Tick>) {
    |ps| == |ts| + 1 && ps[0] == Startup(c) &&
    forall k, n {:trigger Leads(c, ps[k], ts[k], ps[n])} | 0 <= k < |ts| && n == k + 1 ::
      Leads(c, ps[k], ts[k], ps[n])
  }

  // ------------------------------------------------------------------ bounds

  /** The tick takes the scale-up branch, which returns before the floor is enforced,
      with two or more workers missing to the floor. */
  predicate SkipsFloor(c: Config, p: Pool, depth: nat, now: int) {
    !Cooling(c, p, now) && depth >= c.threshold && |Alive(p.workers)| + 1 < c.minWorkers
  }

  /** After any tick, whatever workers died: never above the ceiling; below the floor
      exactly when the floor is skipped; a spawn comes last; and a retirement takes the
      most recent live worker and leaves at least the floor. */
  lemma {:induction false} TickStaysInBounds(c: Config, p: Pool, depth: nat, now: int)
    requires c.minWorkers <= c.maxWorkers && |p.workers| <= AtLeast0(c.maxWorkers)
    ensures var (p', action) := Reconcile(c, p, depth, now);
            var live := Alive(p.workers);
            && |p'.workers| <= AtLeast0(c.maxWorkers)
            && (|p'.workers| < c.minWorkers <==> SkipsFloor(c, p, depth, now))
            && (action.ScaledUp? ==> |live| < c.maxWorkers && |p'.workers| == |live| + 1 && live < p'.workers)
            && (action.ScaledDown? ==> p'.workers <= live && |p'.workers| == AtLeast0(|live| - 1))
            && (action.ScaledDown? ==> c.minWorkers <= |p'.workers|)
            && (action.Stayed? ==> live <= p'.workers)
  {
  }

  /** Two of three workers die, a job is waiting, and the tick leaves two: one less than
      the floor. */
  lemma {:induction false} TickEndsBelowFloor() returns (c: Config, ps: seq<Pool>, ts: seq<Tick>)
    ensures IsRun(c, ps, ts) && c.minWorkers <= c.maxWorkers
    ensures |ts| == 1 && |ps[1].workers| < c.minWorkers <= |ps[0].workers|
  {
    c := Config(3, 3, 1, 30);
    var w0, w1, w2 := Managed(0, false), Managed(1, false), Managed(2, false);
    var started := Pool([w0, w1, w2], None, None, 3);
    assert Startup(c) == started by {
      var p1 := Pool([w0], None, None, 1);
      var p2 := Pool([w0, w1], None, None, 2);
      assert Spawn(Pool([], None, None, 0)) == p1 && Spawn(p1) == p2 && Spawn(p2) == started;
      assert Floored(c, p1) == Floored(c, p2) == Floored(c, started) == started;
    }
    var found := started.(workers := [w0, Managed(1, true), Managed(2, true)]);
    assert Alive(found.workers) == [w0] by {
      assert found.workers[..2] == [w0, Managed(1, true)] && found.workers[..2][..1] == [w0] && [w0][..0] == [];
      assert Alive([w0]) == [w0];
    }
    var (after, action) := Reconcile(c, found, 1, 0);
    ps, ts := [started, after], [Tick(0, 1, found, action)];
    assert Leads(c, ps[0], ts[0], ps[1]);
  }

  /** The number of workers still at work. */
  function Living(ws: seq<Managed>): nat {
    if ws == [] then 0 else Living(ws[1..]) + (if ws[0].finished then 0 else 1)
  }

  lemma {:induction false} LivingAreCounted(ws: seq<Managed>)
    ensures |Alive(ws)| == Living(ws)
  {
    if ws != [] {
      LivingAreCounted(ws[1..]);
      ReapingKeepsTheLiving([ws[0]], ws[1..]);
      assert ws == [ws[0]] + ws[1..] && [ws[0]][..0] == [];
    }
  }

  /** The pool's last decision, if there is one, is a cooldown or more ago. */
  predicate Rested(c: Config, p: Pool, now: int) {
    p.lastScaledAt.None? || p.lastScaledAt.value + 1_000_000 * c.cooldownSeconds <= now
  }

  /** Since when the queue is known to be empty, when it is empty now. */
  function EmptySince(p: Pool, now: int): int {
    if p.emptySince.None? then now else p.emptySince.value
  }

  /** A rested pool scales up exactly if the queue holds as many jobs as the threshold, or
      more, and a worker more is allowed; else it scales down exactly if there are more
      workers than the floor and the queue has been empty for a cooldown. Scaling up adds
      one worker and scaling down takes one; any other tick only fills up to the floor. A
      decision is remembered with its time, and the empty clock starts at the first tick
      that finds the queue empty, and again at a scale-down. */
  lemma {:induction false} TickDecidesIff(c: Config, p: Pool, depth: nat, now: int)
    ensures var (p', action) := Reconcile(c, p, depth, now);
            var n := Living(p.workers);
            && (action.ScaledUp? <==> Rested(c, p, now) && depth >= c.threshold && n < c.maxWorkers)
            && (action.ScaledDown? <==>
                  Rested(c, p, now) && !(depth >= c.threshold && n < c.maxWorkers) && n > c.minWorkers &&
                  depth == 0 && EmptySince(p, now) + 1_000_000 * c.cooldownSeconds <= now)
            && |p'.workers| == (if action.ScaledUp? then n + 1
                                else if action.ScaledDown? then AtLeast0(n - 1)
                                else if n < c.minWorkers then c.minWorkers else n)
            && p'.lastScaledAt == (if action.Stayed? then p.lastScaledAt else Some(now))
            && p'.emptySince == (if action.ScaledDown? then Some(now)
                                 else if depth > 0 then None else Some(EmptySince(p, now)))
  {
    LivingAreCounted(p.workers);
  }

  // ------------------------------------------------------------- identities

  ghost predicate NoTwins(ws: seq<Managed>) {
    forall i, j | 0 <= i < j < |ws| :: ws[i].id != ws[j].id
  }

  ghost predicate Earlier(ws: seq<Managed>, n: nat) {
    forall w | w in ws :: w.id < n
  }

  /** No two workers are the same, and the next one will be another. */
  ghost predicate Distinguished(p: Pool) {
    NoTwins(p.workers) && Earlier(p.workers, p.nextId)
  }

  /** Every worker of `ws` is at work, and is one of `before` or a new one. */
  ghost predicate Renews(before: seq<Managed>, nextId: nat, ws: seq<Managed>) {
    forall w | w in ws :: !w.finished && (w in before || nextId <= w.id)
  }

  lemma {:induction false} OneMoreWorker(ws: seq<Managed>, w: Managed)
    requires NoTwins(ws) && forall x | x in ws :: x.id != w.id
    ensures NoTwins(ws + [w])
  {
  }

  lemma {:induction false} SpawningDistinguishes(p: Pool, before: seq<Managed>, n: nat)
    requires Distinguished(p) && Renews(before, n, p.workers) && n <= p.nextId
    ensures Distinguished(Spawn(p)) && Renews(before, n, Spawn(p).workers)
  {
    OneMoreWorker(p.workers, Managed(p.nextId, false));
  }

  lemma {:induction false} FillingDistinguishes(c: Config, p: Pool, before: seq<Managed>, n: nat)
    requires Distinguished(p) && Renews(before, n, p.workers) && n <= p.nextId
    ensures Distinguished(Floored(c, p)) && Renews(before, n, Floored(c, p).workers)
    decreases c.minWorkers - |p.workers|
  {
    if |p.workers| < c.minWorkers {
      SpawningDistinguishes(p, before, n);
      FillingDistinguishes(c, Spawn(p), before, n);
    }
  }

  /** A supervisor starts with exactly the floor's workers, all different and at work, and
      neither clock running. */
  lemma {:induction false} StartupFillsFloor(c: Config)
    ensures var p := Startup(c);
            && |p.workers| == (if c.minWorkers > 0 then c.minWorkers else 0)
            && Distinguished(p) && (forall w | w in p.workers :: !w.finished)
            && p.lastScaledAt.None? && p.emptySince.None?
  {
    FillingDistinguishes(c, Pool([], None, None, 0), [], 0);
  }

  lemma {:induction false} ReapingDistinguishes(ws: seq<Managed>)
    requires NoTwins(ws)
    ensures NoTwins(Alive(ws))
  {
    if ws != [] {
      var init, last := ws[..|ws| - 1], ws[|ws| - 1];
      ReapingDistinguishes(init);
      ReapingKeepsTheLiving(init, []);
      OneMoreWorker(Alive(init), last);
    }
  }

  lemma {:induction false} ReapedPool(p: Pool, depth: nat, now: int)
    requires Distinguished(p)
    ensures var q := Observed(p, depth, now);
            Distinguished(q) && Renews(p.workers, p.nextId, q.workers) && q.nextId == p.nextId
  {
    ReapingKeepsTheLiving(p.workers, []);
    ReapingDistinguishes(p.workers);
  }

  lemma {:induction false} FewerWorkers(q: Pool, ws: seq<Managed>, before: seq<Managed>, n: nat)
    requires Distinguished(q) && Renews(before, n, q.workers) && ws <= q.workers
    ensures NoTwins(ws) && Earlier(ws, q.nextId) && Renews(before, n, ws)
  {
    assert forall w | w in ws :: w in q.workers;
  }

  /** After a tick every worker is at work, and is one that was there or a new one. */
  lemma {:induction false} TickRenewsWorkers(c: Config, p: Pool, depth: nat, now: int)
    requires Distinguished(p)
    ensures var p' := Reconcile(c, p, depth, now).0;
            Distinguished(p') && Renews(p.workers, p.nextId, p'.workers)
  {
    var q := Observed(p, depth, now);
    ReapedPool(p, depth, now);
    FillingDistinguishes(c, q, p.workers, p.nextId);
    SpawningDistinguishes(q, p.workers, p.nextId);
    if q.workers != [] {
      FewerWorkers(q, q.workers[..|q.workers| - 1], p.workers, p.nextId);
    }
  }

  /** Over every run, whatever workers die in between: never above the ceiling, and below
      the floor exactly after a tick that skipped it. */
  lemma {:induction false} PoolStaysInBounds(c: Config, ps: seq<Pool>, ts: seq<Tick>, n: nat)
    requires IsRun(c, ps, ts) && n <= |ts| && c.minWorkers <= c.maxWorkers
    ensures |ps[n].workers| <= AtLeast0(c.maxWorkers)
    ensures |ps[n].workers| < c.minWorkers <==>
              n > 0 && SkipsFloor(c, ts[n - 1].found, ts[n - 1].depth, ts[n - 1].now)
  {
    if n > 0 {
      PoolStaysInBounds(c, ps, ts, n - 1);
      assert Leads(c, ps[n - 1], ts[n - 1], ps[n]);
      TickStaysInBounds(c, ts[n - 1].found, ts[n - 1].depth, ts[n - 1].now);
    }
  }

  /** `n` steps, as a sum. */
  function Span(n: nat, step: int): int {
    if n == 0 then 0 else Span(n - 1, step) + step
  }

  lemma {:induction false} SpanIsProduct(n: nat, step: int)
    ensures Span(n, step) == n * step
  {
    if n > 0 {
      SpanIsProduct(n - 1, step);
      assert n * step == (n - 1) * step + step;
    }
  }

  lemma {:induction false} SpanGrows(m: nat, n: nat, step: int)
    requires m <= n && 0 <= step
    ensures 0 <= Span(m, step) <= Span(n, step) && (m < n ==> Span(m, step) + step <= Span(n, step))
    decreases n
  {
    if m < n {
      SpanGrows(m, n - 1, step);
    } else if m > 0 {
      SpanGrows(m - 1, n - 1, step);
    }
  }

  // ---------------------------------------------------------------- cooldown

  predicate Decided(t: Tick) {
    !t.action.Stayed?
  }

  /** The number of scaling decisions among the first `n` ticks. */
  function Decisions(ts: seq<Tick>, n: nat): nat
    requires n <= |ts|
  {
    if n == 0 then 0 else Decisions(ts, n - 1) + (if Decided(ts[n - 1]) then 1 else 0)
  }

  lemma {:induction false} TickDecides(c: Config, ps: seq<Pool>, ts: seq<Tick>, k: nat)
    requires IsRun(c, ps, ts) && k < |ts|
    ensures ps[k + 1].lastScaledAt == if Decided(ts[k]) then Some(ts[k].now) else ps[k].lastScaledAt
    ensures Decided(ts[k]) && ps[k].lastScaledAt.Some? ==> ps[k].lastScaledAt.value + Cooldown(c) <= ts[k].now
  {
    assert Leads(c, ps[k], ts[k], ps[k + 1]);
  }

  /** After a decision at tick `i`, the pool remembers one that is `m` cooldowns later. */
  lemma {:induction false} LastDecision(c: Config, ps: seq<Pool>, ts: seq<Tick>, i: nat, n: nat) returns (m: nat)
    requires IsRun(c, ps, ts) && i < n <= |ts| && Decided(ts[i])
    ensures m == Decisions(ts, n) - Decisions(ts, i) - 1
    ensures ps[n].lastScaledAt.Some? && ts[i].now + Span(m, Cooldown(c)) <= ps[n].lastScaledAt.value
    decreases n
  {
    TickDecides(c, ps, ts, n - 1);
    if i == n - 1 {
      m := 0;
    } else {
      m := LastDecision(c, ps, ts, i, n - 1);
      if Decided(ts[n - 1]) {
        m := m + 1;
      }
    }
  }

  /** Decisions are a cooldown apart: between two of them there is time for as many
      cooldowns as there are decisions from the one to the other. */
  lemma {:induction false} DecisionsAreSpaced(c: Config, ps: seq<Pool>, ts: seq<Tick>, i: nat, j: nat)
    requires IsRun(c, ps, ts) && i < j < |ts| && Decided(ts[i]) && Decided(ts[j])
    ensures (Decisions(ts, j) - Decisions(ts, i)) * Cooldown(c) <= ts[j].now - ts[i].now
    ensures Decisions(ts, j) - Decisions(ts, i) >= 1
  {
    var m := LastDecision(c, ps, ts, i, j);
    TickDecides(c, ps, ts, j);
    SpanIsProduct(m + 1, Cooldown(c));
  }

  // -------------------------------------------------------------- idle window

  ghost predicate EmptyFrom(ts: seq<Tick>, i: nat, n: nat)
    requires i <= n <= |ts|
  {
    forall k | i <= k < n :: ts[k].depth == 0
  }

  /** The empty clock was set at a tick since which the queue was always empty. */
  lemma {:induction false} EmptyClock(c: Config, ps: seq<Pool>, ts: seq<Tick>, n: nat) returns (i: nat)
    requires IsRun(c, ps, ts) && 0 < n <= |ts| && ps[n].emptySince.Some?
    ensures i < n && ts[i].now == ps[n].emptySince.value && EmptyFrom(ts, i, n)
    decreases n
  {
    var t := ts[n - 1];
    assert Leads(c, ps[n - 1], t, ps[n]);
    if t.action.ScaledDown? || ps[n - 1].emptySince.None? {
      i := n - 1;
    } else {
      i := EmptyClock(c, ps, ts, n - 1);
    }
  }

  /** A scale-down at tick `j` closes a full window in which every tick saw an empty
      queue: the window opens at a tick that is a cooldown or more before. */
  lemma {:induction false} ScaleDownAfterIdleWindow(c: Config, ps: seq<Pool>, ts: seq<Tick>, j: nat) returns (i: nat)
    requires IsRun(c, ps, ts) && j < |ts| && ts[j].action.ScaledDown?
    ensures i <= j && ts[i].now + Cooldown(c) <= ts[j].now && EmptyFrom(ts, i, j + 1)
  {
    assert Leads(c, ps[j], ts[j], ps[j + 1]);
    if ps[j].emptySince.None? {
      i := j;
    } else {
      i := EmptyClock(c, ps, ts, j);
    }
  }

  /** With a clock that does not go back, no tick inside the cooldown before a
      scale-down saw a job; with one that always advances, none at its very start either. */
  lemma {:induction false} NoJobsInIdleWindow(c: Config, ps: seq<Pool>, ts: seq<Tick>, j: nat, k: nat)
    requires IsRun(c, ps, ts) && k <= j < |ts| && ts[j].action.ScaledDown?
    requires forall a, b | 0 <= a < b < |ts| :: ts[a].now <= ts[b].now
    requires ts[j].now - Cooldown(c) < ts[k].now ||
             (ts[j].now - Cooldown(c) == ts[k].now && forall a, b | 0 <= a < b < |ts| :: ts[a].now < ts[b].now)
    ensures ts[k].depth == 0
  {
    var i := ScaleDownAfterIdleWindow(c, ps, ts, j);
  }

  // -------------------------------------------------------------- convergence

  ghost predicate NoneFinished(ws: seq<Managed>) {
    forall i | 0 <= i < |ws| :: !ws[i].finished
  }

  ghost predicate Follows(c: Config, p: Pool, t: Tick, p': Pool) {
    NoneFinished(p.workers) && Reconcile(c, p, t.depth, t.now) == (p', t.action)
  }

  predicate SoonAfter(t: Tick, u: Tick, gap: int) {
    t.now <= u.now <= t.now + gap
  }

  /** Ticks `a` to `b` find the pool as they left it, and come at most `gap` apart. */
  ghost predicate Undisturbed(c: Config, ps: seq<Pool>, ts: seq<Tick>, a: nat, b: nat, gap: int) {
    && |ps| == |ts| + 1 && a < b <= |ts|
    && (forall k, n {:trigger Follows(c, ps[k], ts[k], ps[n])} | a <= k < b && n == k + 1 ::
          Follows(c, ps[k], ts[k], ps[n]))
    && (forall k, n {:trigger SoonAfter(ts[k], ts[n], gap)} | a <= k < b && n == k + 1 < b ::
          SoonAfter(ts[k], ts[n], gap))
  }

  ghost predicate Busy(c: Config, ts: seq<Tick>, a: nat, b: nat)
    requires a <= b <= |ts|
  {
    forall k | a <= k < b :: ts[k].depth >= c.threshold
  }

  function Size(p: Pool): nat {
    |p.workers|
  }

  /** While the queue is overloaded the pool is full, or its latest decision is recent. */
  ghost predicate Climbing(c: Config, p: Pool, t: int, start: int, from: nat, gap: int) {
    from <= Size(p) && (Size(p) == c.maxWorkers ||
    (p.lastScaledAt.Some? &&
     p.lastScaledAt.value <= start + Span(Size(p) - from, Cooldown(c) + gap) &&
     t <= p.lastScaledAt.value + Cooldown(c)))
  }

  lemma {:induction false} BusyTick(c: Config, p: Pool, depth: nat, now: int)
    requires NoneFinished(p.workers) && depth >= c.threshold && c.minWorkers <= c.maxWorkers
    requires Size(p) <= c.maxWorkers && c.threshold > 0
    ensures var p' := Reconcile(c, p, depth, now).0;
            Size(p) <= Size(p') <= c.maxWorkers &&
            (Size(p) < c.maxWorkers && !Cooling(c, p, now) ==>
               Size(p') == Size(p) + 1 && p'.lastScaledAt == Some(now)) &&
            (Size(p) == c.maxWorkers || Cooling(c, p, now) ==> p'.lastScaledAt == p.lastScaledAt)
  {
  }

  lemma {:induction false} Climb(c: Config, ps: seq<Pool>, ts: seq<Tick>, a: nat, b: nat, n: nat, gap: int)
    requires Undisturbed(c, ps, ts, a, b, gap) && Busy(c, ts, a, b) && a < n <= b
    requires c.minWorkers <= c.maxWorkers && c.threshold > 0 && 0 <= Cooldown(c) && 0 < gap
    requires Size(ps[a]) <= c.maxWorkers
    requires ps[a].lastScaledAt.Some? ==> ps[a].lastScaledAt.value <= ts[a].now
    ensures Size(ps[a]) <= Size(ps[n]) <= c.maxWorkers
    ensures Climbing(c, ps[n], ts[n - 1].now, ts[a].now, Size(ps[a]), gap)
    decreases n
  {
    var k := n - 1;
    assert Follows(c, ps[k], ts[k], ps[n]);
    if k > a {
      Climb(c, ps, ts, a, b, k, gap);
      assert SoonAfter(ts[k - 1], ts[k], gap);
    }
    BusyTick(c, ps[k], ts[k].depth, ts[k].now);
    SpanGrows(Size(ps[k]) - Size(ps[a]), Size(ps[n]) - Size(ps[a]), Cooldown(c) + gap);
  }

  lemma {:induction false} NeverShrinks(
    c: Config, ps: seq<Pool>, ts: seq<Tick>, a: nat, b: nat, gap: int, k: nat, n: nat)
    requires Undisturbed(c, ps, ts, a, b, gap) && Busy(c, ts, a, b) && a <= k <= n <= b
    requires c.minWorkers <= c.maxWorkers && c.threshold > 0 && Size(ps[a]) <= c.maxWorkers
    ensures Size(ps[a]) <= Size(ps[k]) <= Size(ps[n]) <= c.maxWorkers
    decreases n
  {
    if a < n {
      NeverShrinks(c, ps, ts, a, b, gap, if k < n then k else n - 1, n - 1);
      assert Follows(c, ps[n - 1], ts[n - 1], ps[n]);
      BusyTick(c, ps[n - 1], ts[n - 1].depth, ts[n - 1].now);
    }
  }

  /** Constant depth at or above the threshold drives the pool monotonically to the
      ceiling, which it reaches within one cooldown and one gap per missing worker. */
  lemma {:induction false} OverloadFillsThePool(c: Config, ps: seq<Pool>, ts: seq<Tick>, a: nat, b: nat, gap: int)
    requires Undisturbed(c, ps, ts, a, b, gap) && Busy(c, ts, a, b)
    requires c.minWorkers <= c.maxWorkers && c.threshold > 0 && 0 <= Cooldown(c) && 0 < gap
    requires Size(ps[a]) <= c.maxWorkers
    requires ps[a].lastScaledAt.Some? ==> ps[a].lastScaledAt.value <= ts[a].now
    ensures forall k, n | a <= k <= n <= b :: Size(ps[k]) <= Size(ps[n]) <= c.maxWorkers
    ensures ts[b - 1].now - ts[a].now >= (c.maxWorkers - Size(ps[a])) * (Cooldown(c) + gap) ==>
              Size(ps[b]) == c.maxWorkers
  {
    forall k, n | a <= k <= n <= b ensures Size(ps[k]) <= Size(ps[n]) <= c.maxWorkers {
      NeverShrinks(c, ps, ts, a, b, gap, k, n);
    }
    Climb(c, ps, ts, a, b, b, gap);
    if Size(ps[b]) < c.maxWorkers {
      SpanGrows(Size(ps[b]) - Size(ps[a]), c.maxWorkers - Size(ps[a]), Cooldown(c) + gap);
      SpanIsProduct(c.maxWorkers - Size(ps[a]), Cooldown(c) + gap);
    }
  }

  /** The later of the pool's two clocks. */
  function Latest(p: Pool, e: int): int {
    if p.lastScaledAt.Some? && p.lastScaledAt.value > e then p.lastScaledAt.value else e
  }

  /** The floor as the size of a pool. */
  function Floor(c: Config): nat {
    AtLeast0(c.minWorkers)
  }

  /** What an idle pool drains from: a pool below the floor is first filled up to it. */
  function Surplus(c: Config, p: Pool): nat {
    AtLeast0(Size(p) - Floor(c))
  }

  /** While the queue is empty the pool is at the floor, or one of its clocks is recent. */
  ghost predicate Descending(c: Config, p: Pool, t: int, start: int, from: nat, gap: int) {
    p.emptySince.Some? && Floor(c) <= Size(p) && Surplus(c, p) <= from &&
    (Size(p) == Floor(c) ||
     (Latest(p, p.emptySince.value) <= start + Span(from - Surplus(c, p), Cooldown(c) + gap) &&
      t <= Latest(p, p.emptySince.value) + Cooldown(c)))
  }

  lemma {:induction false} IdleTick(c: Config, p: Pool, now: int)
    requires NoneFinished(p.workers) && c.threshold > 0
    ensures var p' := Reconcile(c, p, 0, now).0;
            var e := if p.emptySince.Some? then p.emptySince.value else now;
            if Size(p) > c.minWorkers && !Cooling(c, p, now) && now - e >= Cooldown(c) then
              Size(p') == AtLeast0(Size(p) - 1) && p'.lastScaledAt == Some(now) && p'.emptySince == Some(now)
            else
              Size(p') == Max(Size(p), Floor(c)) && p'.lastScaledAt == p.lastScaledAt && p'.emptySince == Some(e)
  {
  }

  lemma {:induction false} Descend(
    c: Config, ps: seq<Pool>, ts: seq<Tick>, a: nat, b: nat, n: nat, gap: int)
    requires Undisturbed(c, ps, ts, a, b, gap) && EmptyFrom(ts, a, b) && a < n <= b
    requires c.threshold > 0 && 0 <= Cooldown(c) && 0 < gap
    requires ps[a].lastScaledAt.Some? ==> ps[a].lastScaledAt.value <= ts[a].now
    requires ps[a].emptySince.Some? ==> ps[a].emptySince.value <= ts[a].now
    ensures Descending(c, ps[n], ts[n - 1].now, ts[a].now, Surplus(c, ps[a]), gap)
    decreases n
  {
    var k := n - 1;
    assert Follows(c, ps[k], ts[k], ps[n]);
    if k > a {
      Descend(c, ps, ts, a, b, k, gap);
      assert SoonAfter(ts[k - 1], ts[k], gap);
    }
    IdleTick(c, ps[k], ts[k].now);
    SpanGrows(Surplus(c, ps[a]) - Surplus(c, ps[k]), Surplus(c, ps[a]) - Surplus(c, ps[n]), Cooldown(c) + gap);
  }

  lemma {:induction false} NeverGrows(
    c: Config, ps: seq<Pool>, ts: seq<Tick>, a: nat, b: nat, gap: int, k: nat, n: nat)
    requires Undisturbed(c, ps, ts, a, b, gap) && EmptyFrom(ts, a, b) && a <= k < n <= b
    requires c.threshold > 0
    ensures Floor(c) <= Size(ps[n]) <= Max(Size(ps[k]), Floor(c))
    decreases n
  {
    if k < n - 1 {
      NeverGrows(c, ps, ts, a, b, gap, k, n - 1);
    }
    assert Follows(c, ps[n - 1], ts[n - 1], ps[n]);
    IdleTick(c, ps[n - 1], ts[n - 1].now);
  }

  /** Constant depth zero drives any pool to the floor and holds it there: a pool below
      the floor is filled by the first tick; a pool above it never grows, and is drained
      within one cooldown and one gap per surplus worker. */
  lemma {:induction false} IdlenessDrainsThePool(
    c: Config, ps: seq<Pool>, ts: seq<Tick>, a: nat, b: nat, gap: int)
    requires Undisturbed(c, ps, ts, a, b, gap) && EmptyFrom(ts, a, b)
    requires c.threshold > 0 && 0 <= Cooldown(c) && 0 < gap
    requires ps[a].lastScaledAt.Some? ==> ps[a].lastScaledAt.value <= ts[a].now
    requires ps[a].emptySince.Some? ==> ps[a].emptySince.value <= ts[a].now
    ensures forall k, n | a <= k < n <= b :: Floor(c) <= Size(ps[n]) <= Max(Size(ps[k]), Floor(c))
    ensures ts[b - 1].now - ts[a].now >= Surplus(c, ps[a]) * (Cooldown(c) + gap) ==> Size(ps[b]) == Floor(c)
  {
    forall k, n | a <= k < n <= b ensures Floor(c) <= Size(ps[n]) <= Max(Size(ps[k]), Floor(c)) {
      NeverGrows(c, ps, ts, a, b, gap, k, n);
    }
    Descend(c, ps, ts, a, b, b, gap);
    if Size(ps[b]) > Floor(c) {
      SpanGrows(Surplus(c, ps[a]) - Surplus(c, ps[b]), Surplus(c, ps[a]), Cooldown(c) + gap);
      SpanIsProduct(Surplus(c, ps[a]), Cooldown(c) + gap);
    }
  }
}
