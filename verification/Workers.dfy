/**
 The queue, the dispatcher and the worker as objects. Each method makes exactly the
 steps of `Jobs`; what the outside world decides (whether a class resolves, whether
 a handler raises, how much time passes) comes in as a parameter.
 */
module Workers {
  import opened Options
  import opened Jobs
  import opened JobPolicy

  class JobQueue {
    var now: int
    var pending: seq<Item>
    var flights: seq<Item>
    var done: seq<Item>
    var failed: seq<Item>
    ghost var ledger: map<nat, Ledger>

    constructor (now: int)
      ensures Snapshot() == System(now, [], [], [], [], map[])
    {
      this.now := now;
      pending, flights, done, failed, ledger := [], [], [], [], map[];
    }

    ghost function Snapshot(): System
      reads this
    {
      System(now, pending, flights, done, failed, ledger)
    }

    method Push(r: Record)
      modifies this`pending
      ensures pending == old(pending) + [Item(r, Waiting)]
    {
      pending := pending + [Item(r, Waiting)];
    }

    /** The first due record of the first listed queue that has one, if any. */
    method FindDue(queues: seq<string>) returns (i: Option<nat>)
      ensures i.Some? ==> MayPop(pending, queues, i.value, now)
      ensures i.None? ==> forall q, j | 0 <= q < |queues| && 0 <= j < |pending| :: !Due(pending[j], queues[q], now)
    {
      for q := 0 to |queues|
        invariant forall p, j | 0 <= p < q && 0 <= j < |pending| :: !Due(pending[j], queues[p], now)
      {
        for j := 0 to |pending|
          invariant forall k | 0 <= k < j :: !Due(pending[k], queues[q], now)
        {
          if Due(pending[j], queues[q], now) {
            return Some(j);
          }
        }
      }
      i := None;
    }

    method Pop(worker: nat, queues: seq<string>, ghost w: World) returns (r: Option<Record>, ghost i: nat)
      modifies this
      ensures r.None? ==> Snapshot() == old(Snapshot())
      ensures r.None? ==> forall q, j | 0 <= q < |queues| && 0 <= j < |pending| :: !Due(pending[j], queues[q], now)
      ensures r.Some? ==>
                Enabled(w, old(Snapshot()), Jobs.Pop(worker, queues, i)) && r.value == old(pending)[i].record &&
                Snapshot() == Next(w, old(Snapshot()), Jobs.Pop(worker, queues, i)) &&
                flights == old(flights) + [Item(r.value, Popped(worker))]
    {
      var found := FindDue(queues);
      if found.None? {
        return None, 0;
      }
      i := found.value;
      var record := pending[found.value].record;
      pending := Remove(pending, found.value);
      flights := flights + [Item(record, Popped(worker))];
      ledger := Noted(ledger, record.id);
      r := Some(record);
    }

    /** The record leaves the flight for good. */
    method Ack(f: nat)
      requires f < |flights|
      modifies this`flights, this`done
      ensures flights == Remove(old(flights), f) && done == old(done) + [Item(old(flights)[f].record, Acked)]
    {
      done := done + [Item(flights[f].record, Acked)];
      flights := Remove(flights, f);
    }

    method MarkFailed(f: nat, reason: Reason)
      requires f < |flights|
      modifies this`flights, this`failed
      ensures flights == Remove(old(flights), f)
      ensures failed == old(failed) + [Item(old(flights)[f].record, Failed(reason))]
    {
      failed := failed + [Item(flights[f].record, Failed(reason))];
      flights := Remove(flights, f);
    }

    /** A retry that is pushed takes the place of the record in flight. */
    method PushBack(f: nat, retry: Record)
      requires f < |flights|
      modifies this`flights, this`pending
      ensures flights == Remove(old(flights), f) && pending == old(pending) + [Item(retry, Waiting)]
    {
      flights := Remove(flights, f);
      Push(retry);
    }
  }

  class Dispatcher {
    const queue: JobQueue

    constructor (queue: JobQueue)
      ensures this.queue == queue
    {
      this.queue := queue;
    }

    method Dispatch(id: nat, jobClass: string, payload: string, queueName: string, delay: Option<int>, ghost w: World)
      returns (r: Record)
      requires id !in queue.ledger
      modifies queue
      ensures queue.Snapshot() ==
                Next(w, old(queue.Snapshot()), Jobs.Dispatch(id, jobClass, payload, queueName, delay))
      ensures r == Fresh(id, jobClass, payload, queueName, delay, old(queue.now))
    {
      var now := queue.now;
      var availableAt := if delay.Some? then now + delay.value else now;
      r := Record(id, jobClass, payload, queueName, 0, now, availableAt);
      queue.Push(r);
      queue.ledger := queue.ledger[id := Ledger(r, [], 0)];
    }
  }

  /** The steps of a run of `took` under a timeout of `t` seconds, if positive: it starts,
      the time passes, and it ends well, or in a failure if it raised or was cut off. */
  function Executed(w: World, s: System, f: nat, took: nat, raises: bool, t: int, d: nat): System
    requires f < |s.flights| && s.flights[f].place.Popped? && s.flights[f].record.jobClass in w.classes
  {
    var late := 0 < t && 1_000_000 * t < took;
    var s1 := Next(w, s, Start(f));
    var s2 := Next(w, s1, Tick(if late then 1_000_000 * t else took));
    var last := |s2.flights| - 1;
    Next(w, s2, if raises || late then Jobs.Fail(last, d) else Succeed(last))
  }

  /** A job is acknowledged exactly if its run neither raised nor outlasted its timeout,
      and no run takes longer than that. */
  lemma {:induction false} TimeoutEndsRun(
    w: World, s: System, f: nat, took: nat, raises: bool, t: int, d: nat)
    requires f < |s.flights| && s.flights[f].place.Popped? && s.flights[f].record.jobClass in w.classes
    ensures var s', r := Executed(w, s, f, took, raises, t, d), s.flights[f].record;
            && (0 < t && 1_000_000 * t < took ==> s'.done == s.done && s'.now == s.now + 1_000_000 * t + d)
            && (t <= 0 || took <= 1_000_000 * t ==>
                  s'.done == (if raises then s.done else s.done + [Item(r, Acked)]) &&
                  s'.now == s.now + took + (if raises then d else 0))
            && (r.id in s.ledger ==> r.id in s'.ledger && s'.ledger[r.id].runs == s.ledger[r.id].runs + [s.now])
  {
  }

  class Worker {
    const world: World
    const queue: JobQueue

    constructor (world: World, queue: JobQueue)
      ensures this.world == world && this.queue == queue
    {
      this.world, this.queue := world, queue;
    }

    /** Retry the record, or move it to the failed pool; `d` passes between the two
        readings of the clock. */
    method HandleFailure(f: nat, d: nat)
      requires f < |queue.flights| && queue.flights[f].place.Running?
      requires queue.flights[f].record.jobClass in world.classes
      modifies queue
      ensures queue.Snapshot() == Next(world, old(queue.Snapshot()), Jobs.Fail(f, d))
    {
      var record := queue.flights[f].record;
      var job := world.classes[record.jobClass];
      var policy := ResolvePolicy(world, record, job);
      var attempt := record.attempts + 1;
      var now := queue.now;
      queue.now := queue.now + d;
      queue.ledger := Noted(queue.ledger, record.id);
      if job.retryUntil.Some? {
        var deadline := record.queuedAt + job.retryUntil.value;
        if now >= deadline {
          queue.MarkFailed(f, PastDeadline);
          return;
        }
      }
      if attempt >= policy.tries {
        queue.MarkFailed(f, Exhausted);
        return;
      }
      var delaySeconds := 0;
      if policy.backoff != [] {
        var last := |policy.backoff| - 1;
        delaySeconds := policy.backoff[if attempt - 1 < last then attempt - 1 else last];
      }
      var retry := record.(attempts := attempt, availableAt := queue.now + 1_000_000 * delaySeconds);
      queue.PushBack(f, retry);
    }

    /** The handler of a popped record starts. */
    method Begin(f: nat) returns (last: nat)
      requires f < |queue.flights| && queue.flights[f].place.Popped?
      requires queue.flights[f].record.jobClass in world.classes
      modifies queue
      ensures queue.Snapshot() == Next(world, old(queue.Snapshot()), Start(f))
      ensures last == |queue.flights| - 1 && queue.flights[last].place.Running?
      ensures queue.flights[last].record == old(queue.flights)[f].record
    {
      var record := queue.flights[f].record;
      var worker := queue.flights[f].place.worker;
      queue.flights := Remove(queue.flights, f) + [Item(record, Running(worker))];
      queue.ledger := Started(queue.ledger, record.id, queue.now);
      last := |queue.flights| - 1;
    }

    method Acknowledge(f: nat)
      requires f < |queue.flights| && queue.flights[f].place.Running?
      modifies queue
      ensures queue.Snapshot() == Next(world, old(queue.Snapshot()), Succeed(f))
    {
      var record := queue.flights[f].record;
      queue.Ack(f);
      queue.ledger := Noted(queue.ledger, record.id);
    }

    /** A record that resolved runs for `took`, or is cut off at the job's timeout if it has
        one; it is then acknowledged, or judged if it raised or was cut off. */
    method Execute(f: nat, took: nat, raises: bool, d: nat)
      requires f < |queue.flights| && queue.flights[f].place.Popped?
      requires queue.flights[f].record.jobClass in world.classes
      modifies queue
      ensures forall t | HasTimeout(world, old(queue.flights)[f].record, t) ::
                queue.Snapshot() == Executed(world, old(queue.Snapshot()), f, took, raises, t, d)
    {
      var record := queue.flights[f].record;
      var policy := ResolvePolicy(world, record, world.classes[record.jobClass]);
      PolicyIsMerged(world, record);
      var last := Begin(f);
      ghost var begun := queue.Snapshot();
      var late := policy.timeout > 0 && took > 1_000_000 * policy.timeout;
      var elapsed := if late then 1_000_000 * policy.timeout else took;
      queue.now := queue.now + elapsed;
      assert queue.Snapshot() == Next(world, begun, Tick(elapsed));
      if late || raises {
        HandleFailure(last, d);
      } else {
        Acknowledge(last);
      }
    }

    /** One record from flight to its verdict; one that does not resolve fails at once. */
    method Process(f: nat, resolves: bool, took: nat, raises: bool, d: nat)
      requires f < |queue.flights| && queue.flights[f].place.Popped?
      requires resolves ==> queue.flights[f].record.jobClass in world.classes
      modifies queue
      ensures !resolves ==> queue.Snapshot() == Next(world, old(queue.Snapshot()), Reject(f))
      ensures forall t | resolves && HasTimeout(world, old(queue.flights)[f].record, t) ::
                queue.Snapshot() == Executed(world, old(queue.Snapshot()), f, took, raises, t, d)
    {
      var record := queue.flights[f].record;
      if !resolves {
        queue.MarkFailed(f, Unresolvable);
        queue.ledger := Noted(queue.ledger, record.id);
        return;
      }
      Execute(f, took, raises, d);
    }
  }
}
