/** The supervisor's pool object, updated in place, against the pool's specification. */
module SupervisorPool {
  import opened Options
  import opened Supervisor

  class PoolState {
    const config: Config

    var workers: seq<Managed>
    var emptySince: Option<int>
    var lastScaledAt: Option<int>
    var nextId: nat

    ghost function Model(): Pool
      reads this
    {
      Pool(workers, emptySince, lastScaledAt, nextId)
    }

    /** A new pool with its first workers already spawned, one by one. */
    constructor (config: Config)
      ensures this.config == config && Model() == Startup(config)
    {
      this.config := config;
      workers, emptySince, lastScaledAt, nextId := [], None, None, 0;
      new;
      for i := 0 to if config.minWorkers < 0 then 0 else config.minWorkers
        invariant |workers| == i && Floored(config, Model()) == Startup(config)
      {
        SpawnWorker();
      }
    }

    method SpawnWorker()
      modifies this
      ensures Model() == Spawn(old(Model()))
    {
      workers := workers + [Managed(nextId, false)];
      nextId := nextId + 1;
    }

    /** Drops the worker spawned last, if there is one. */
    method RetireWorker()
      modifies this`workers
      ensures workers == if old(workers) == [] then [] else old(workers)[..|old(workers)| - 1]
    {
      if workers == [] {
        return;
      }
      workers := workers[..|workers| - 1];
    }

    method EnforceFloor()
      modifies this
      ensures Model() == Floored(config, old(Model()))
    {
      while |workers| < config.minWorkers
        invariant Floored(config, Model()) == Floored(config, old(Model()))
      {
        SpawnWorker();
      }
    }

    /** One supervision tick over this pool. */
    method Reconcile(depth: nat, now: int) returns (action: Action)
      modifies this
      ensures (Model(), action) == Supervisor.Reconcile(config, old(Model()), depth, now)
    {
      action := Stayed;
      workers := Alive(workers);
      if depth == 0 {
        if emptySince.None? {
          emptySince := Some(now);
        }
      } else {
        emptySince := None;
      }
      if lastScaledAt.Some? {
        var elapsed := now - lastScaledAt.value;
        if elapsed < Cooldown(config) {
          EnforceFloor();
          return;
        }
      }
      if depth >= config.threshold && |workers| < config.maxWorkers {
        SpawnWorker();
        lastScaledAt := Some(now);
        return ScaledUp;
      }
      if |workers| > config.minWorkers && emptySince.Some? && now - emptySince.value >= Cooldown(config) {
        RetireWorker();
        lastScaledAt := Some(now);
        emptySince := Some(now);
        return ScaledDown;
      }
      EnforceFloor();
    }
  }
}
