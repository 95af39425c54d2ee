/**
 The autoscaler of one queue: what a tick does to its pool, and what holds over
 every sequence of ticks, whatever workers die in between. Times are in
 microseconds, the configured cooldown in seconds.
 */
module Supervisor {
  import opened Options

  datatype Config = Config(minWorkers: int, maxWorkers: int, threshold: int, cooldownSeconds: int)

  /** A managed worker, and whether its task has finished on its own. */
  datatype Managed = Managed(id: nat, finished: bool)

  datatype Pool = Pool(
    workers: seq<Managed>,
    emptySince: Option<int>,
    lastScaledAt: Option<int>,
    nextId: nat)

  datatype Action = ScaledUp | ScaledDown | Stayed

  function Cooldown(c: Config): int {
    1_000_000 * c.cooldownSeconds
  }

  function Alive(ws: seq<Managed>): (r: seq<Managed>)
    ensures |r| <= |ws|
    ensures (forall i | 0 <= i < |ws| :: !ws[i].finished) ==> r == ws
  {
    if ws == [] then []
    else if ws[|ws| - 1].finished then Alive(ws[..|ws| - 1])
    else Alive(ws[..|ws| - 1]) + [ws[|ws| - 1]]
  }

  lemma {:induction false} ReapingDistributes(ws: seq<Managed>, more: seq<Managed>)
    ensures Alive(ws + more) == Alive(ws) + Alive(more)
    decreases |more|
  {
    if more == [] {
      assert ws + more == ws;
    } else {
      var init, last := more[..|more| - 1], more[|more| - 1];
      ReapingDistributes(ws, init);
      assert (ws + more)[..|ws + more| - 1] == ws + init;
      if !last.finished {
        assert Alive(ws) + (Alive(init) + [last]) == (Alive(ws) + Alive(init)) + [last];
      }
    }
  }

  lemma {:induction false} ReapingKeepsUnfinished(ws: seq<Managed>)
    ensures forall w :: w in Alive(ws) <==> w in ws && !w.finished
  {
    if ws != [] {
      ReapingKeepsUnfinished(ws[..|ws| - 1]);
      assert ws == ws[..|ws| - 1] + [ws[|ws| - 1]];
    }
  }

  /** Reaping drops exactly the finished workers, wherever the list is cut. */
  lemma {:induction false} ReapingKeepsTheLiving(ws: seq<Managed>, more: seq<Managed>)
    ensures Alive(ws + more) == Alive(ws) + Alive(more)
    ensures forall w :: w in Alive(ws) <==> w in ws && !w.finished
  {
    ReapingDistributes(ws, more);
    ReapingKeepsUnfinished(ws);
  }

  function Spawn(p: Pool): Pool {
    p.(workers := p.workers + [Managed(p.nextId, false)], nextId := p.nextId + 1)
  }

  /** Spawn workers up to the floor. */
  function Floored(c: Config, p: Pool): (r: Pool)
    ensures |r.workers| == if |p.workers| < c.minWorkers then c.minWorkers else |p.workers|
    ensures p.workers <= r.workers && r.emptySince == p.emptySince && r.lastScaledAt == p.lastScaledAt
    decreases c.minWorkers - |p.workers|
  {
    if |p.workers| < c.minWorkers then Floored(c, Spawn(p)) else p
  }

  /** The pool after reaping and looking at the depth. */
  function Observed(p: Pool, depth: nat, now: int): Pool {
    p.(workers := Alive(p.workers),
       emptySince := if depth > 0 then None else if p.emptySince.None? then Some(now) else p.emptySince)
  }

  predicate Cooling(c: Config, p: Pool, now: int) {
    p.lastScaledAt.Some? && now - p.lastScaledAt.value < Cooldown(c)
  }

  predicate Overloaded(c: Config, p: Pool, depth: nat) {
    depth >= c.threshold && |p.workers| < c.maxWorkers
  }

  predicate Idle(c: Config, p: Pool, now: int) {
    |p.workers| > c.minWorkers && p.emptySince.Some? && now - p.emptySince.value >= Cooldown(c)
  }

  /** One tick: at most one scaling decision, or else the floor is enforced. A pool
      without workers has nobody to retire, but the decision is still recorded. */
  function Reconcile(c: Config, pool: Pool, depth: nat, now: int): (Pool, Action) {
    var p := Observed(pool, depth, now);
    if Cooling(c, p, now) then (Floored(c, p), Stayed)
    else if Overloaded(c, p, depth) then (Spawn(p).(lastScaledAt := Some(now)), ScaledUp)
    else if Idle(c, p, now) then
      (p.(workers := if p.workers == [] then [] else p.workers[..|p.workers| - 1],
          lastScaledAt := Some(now), emptySince := Some(now)), ScaledDown)
    else (Floored(c, p), Stayed)
  }

  function Startup(c: Config): Pool {
    Floored(c, Pool([], None, None, 0))
  }
}
