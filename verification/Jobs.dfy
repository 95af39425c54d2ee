/**
 Jobs from dispatch to ack or failure: records, the policy that is merged from the
 job class and its queue, and the verdict after a failed run. Times are in
 microseconds.
 */
module Jobs {
  import opened Options

  datatype Record = Record(
    id: nat, jobClass: string, payload: string, queue: string,
    attempts: nat, queuedAt: int, availableAt: int)

  datatype QueueConfig = QueueConfig(tries: int, timeout: int, backoff: seq<int>)

  datatype QueuesConfig = QueuesConfig(queues: map<string, QueueConfig>, fallback: QueueConfig)

  /** Policy attributes of a job class; a missing one defers to the queue. */
  datatype JobClass = JobClass(
    tries: Option<int>, maxAttempts: Option<int>, timeout: Option<int>,
    backoff: Option<seq<int>>, retryUntil: Option<int>)

  /** The job classes that can be imported, and the bound queue policies. */
  datatype World = World(classes: map<string, JobClass>, config: Option<QueuesConfig>)

  datatype Policy = Policy(tries: int, timeout: int, backoff: seq<int>)

  function ForQueue(c: QueuesConfig, name: string): QueueConfig {
    if name in c.queues then c.queues[name] else c.fallback
  }

  /** Neither missing nor zero. */
  predicate Given(o: Option<int>) {
    o.Some? && o.value != 0
  }

  function QueuePolicy(w: World, queue: string): QueueConfig {
    match w.config
    case Some(c) => ForQueue(c, queue)
    case None => QueueConfig(1, 60, [])
  }

  function ResolvePolicy(w: World, r: Record, j: JobClass): Policy {
    var q := QueuePolicy(w, r.queue);
    Policy(
      if Given(j.tries) then j.tries.value else if Given(j.maxAttempts) then j.maxAttempts.value else q.tries,
      if Given(j.timeout) then j.timeout.value else q.timeout,
      if j.backoff.Some? && j.backoff.value != [] then j.backoff.value else q.backoff)
  }

  /** Seconds to wait before run `i + 2`. */
  function BackoffAt(p: Policy, i: nat): int {
    if p.backoff == [] then 0 else p.backoff[if i < |p.backoff| - 1 then i else |p.backoff| - 1]
  }

  /** The same in microseconds. */
  function Delay(p: Policy, i: nat): int {
    1_000_000 * BackoffAt(p, i)
  }

  datatype Reason = Unresolvable | PastDeadline | Exhausted

  datatype Verdict = GiveUp(reason: Reason) | Again(record: Record)

  /** What becomes of a record whose run failed; the deadline is checked at `now`,
      the next availability is computed at `later`. */
  function Judge(r: Record, j: JobClass, p: Policy, now: int, later: int): Verdict {
    var attempt := r.attempts + 1;
    if j.retryUntil.Some? && now >= r.queuedAt + j.retryUntil.value then GiveUp(PastDeadline)
    else if attempt >= p.tries then GiveUp(Exhausted)
    else Again(r.(attempts := attempt, availableAt := later + Delay(p, attempt - 1)))
  }

  // --------------------------------------------------------------- the system

  datatype Place =
    | Waiting
    | Popped(worker: nat)
    | Running(worker: nat)
    | Acked
    | Failed(reason: Reason)

  datatype Item = Item(record: Record, place: Place)

  /** What happened to a dispatched id so far: the record as dispatched, the times
      at which its handler was started, and its number of processing steps. */
  datatype Ledger = Ledger(origin: Record, runs: seq<int>, steps: nat)

  datatype System = System(
    now: int,
    pending: seq<Item>, flights: seq<Item>, done: seq<Item>, failed: seq<Item>,
    ledger: map<nat, Ledger>)

  datatype Step =
    | Tick(d: nat)
    | Dispatch(id: nat, jobClass: string, payload: string, queue: string, delay: Option<int>)
    | Pop(worker: nat, queues: seq<string>, i: nat)
    | Reject(f: nat)             // class, payload or handler cannot be resolved
    | Start(f: nat)
    | Succeed(f: nat)
    | Fail(f: nat, d: nat)       // the run raised; `d` passes while the verdict is made

  predicate Due(it: Item, queue: string, now: int) {
    it.record.queue == queue && it.record.availableAt <= now
  }

  /** Pop serves the first listed queue that has a due record. */
  predicate MayPop(pending: seq<Item>, queues: seq<string>, i: nat, now: int) {
    i < |pending| &&
    exists q | 0 <= q < |queues| ::
      Due(pending[i], queues[q], now) &&
      forall j, p | 0 <= j < |pending| && 0 <= p < q :: !Due(pending[j], queues[p], now)
  }

  predicate Enabled(w: World, s: System, e: Step) {
    match e
    case Tick(_) => true
    case Dispatch(id, _, _, _, _) => id !in s.ledger
    case Pop(_, queues, i) => MayPop(s.pending, queues, i, s.now)
    case Reject(f) => f < |s.flights| && s.flights[f].place.Popped?
    case Start(f) => f < |s.flights| && s.flights[f].place.Popped? && s.flights[f].record.jobClass in w.classes
    case Succeed(f) => f < |s.flights| && s.flights[f].place.Running?
    case Fail(f, _) => f < |s.flights| && s.flights[f].place.Running? && s.flights[f].record.jobClass in w.classes
  }

  function Remove(xs: seq<Item>, i: nat): seq<Item>
    requires i < |xs|
  {
    xs[..i] + xs[i + 1..]
  }

  /** One more processing step of an id. */
  function Noted(ledger: map<nat, Ledger>, id: nat): map<nat, Ledger> {
    if id in ledger then ledger[id := ledger[id].(steps := ledger[id].steps + 1)] else ledger
  }

  function Started(ledger: map<nat, Ledger>, id: nat, now: int): map<nat, Ledger> {
    if id in ledger
    then ledger[id := ledger[id].(steps := ledger[id].steps + 1, runs := ledger[id].runs + [now])]
    else ledger
  }

  /** The record as the dispatcher builds it. */
  function Fresh(id: nat, jobClass: string, payload: string, queue: string, delay: Option<int>, now: int): Record {
    Record(id, jobClass, payload, queue, 0, now, if delay.Some? then now + delay.value else now)
  }

  function Next(w: World, s: System, e: Step): System
    requires Enabled(w, s, e)
  {
    match e
    case Tick(d) => s.(now := s.now + d)
    case Dispatch(id, c, p, q, delay) =>
      var r := Fresh(id, c, p, q, delay, s.now);
      s.(pending := s.pending + [Item(r, Waiting)], ledger := s.ledger[id := Ledger(r, [], 0)])
    case Pop(worker, _, i) =>
      var r := s.pending[i].record;
      s.(pending := Remove(s.pending, i), flights := s.flights + [Item(r, Popped(worker))],
         ledger := Noted(s.ledger, r.id))
    case Reject(f) =>
      var r := s.flights[f].record;
      s.(flights := Remove(s.flights, f), failed := s.failed + [Item(r, Failed(Unresolvable))],
         ledger := Noted(s.ledger, r.id))
    case Start(f) =>
      var r := s.flights[f].record;
      s.(flights := Remove(s.flights, f) + [Item(r, Running(s.flights[f].place.worker))],
         ledger := Started(s.ledger, r.id, s.now))
    case Succeed(f) =>
      var r := s.flights[f].record;
      s.(flights := Remove(s.flights, f), done := s.done + [Item(r, Acked)], ledger := Noted(s.ledger, r.id))
    case Fail(f, d) =>
      var r := s.flights[f].record;
      var j := w.classes[r.jobClass];
      var s' := s.(now := s.now + d, flights := Remove(s.flights, f), ledger := Noted(s.ledger, r.id));
      match Judge(r, j, ResolvePolicy(w, r, j), s.now, s.now + d)
      case GiveUp(reason) => s'.(failed := s.failed + [Item(r, Failed(reason))])
      case Again(retry) => s'.(pending := s.pending + [Item(retry, Waiting)])
  }
}
