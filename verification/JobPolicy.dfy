/**
 What a job's class and its queue's configuration promise of its runs, said in terms
 of their attributes.
 */
module JobPolicy {
  import opened Arithmetic
  import opened Options
  import opened Jobs
  import opened JobRuns

  /** The configuration is the queue's own, or the fallback of those bound, or the
      defaults when none are bound. */
  predicate Configured(w: World, queue: string, q: QueueConfig) {
    match w.config
    case None => q == QueueConfig(1, 60, [])
    case Some(c) => if queue in c.queues then q == c.queues[queue] else q == c.fallback
  }

  /** The job may be tried `n` times: the class's `tries` if given and non-zero, else its
      `max_attempts`, else what its queue says. */
  ghost predicate HasTries(w: World, r: Record, n: int) {
    r.jobClass in w.classes &&
    var j := w.classes[r.jobClass];
    if j.tries.Some? && j.tries.value != 0 then n == j.tries.value
    else if j.maxAttempts.Some? && j.maxAttempts.value != 0 then n == j.maxAttempts.value
    else exists q :: Configured(w, r.queue, q) && n == q.tries
  }

  /** The job waits by this list: the class's if given and not empty, else its queue's. */
  ghost predicate HasBackoff(w: World, r: Record, bs: seq<int>) {
    r.jobClass in w.classes &&
    var j := w.classes[r.jobClass];
    if j.backoff.Some? && |j.backoff.value| > 0 then bs == j.backoff.value
    else exists q :: Configured(w, r.queue, q) && bs == q.backoff
  }

  /** A run may take `t` seconds, the class's if given and non-zero, else its queue's. */
  ghost predicate HasTimeout(w: World, r: Record, t: int) {
    r.jobClass in w.classes &&
    var j := w.classes[r.jobClass];
    if j.timeout.Some? && j.timeout.value != 0 then t == j.timeout.value
    else exists q :: Configured(w, r.queue, q) && t == q.timeout
  }

  /** The wait after the run number `k`, counted from 0: the list's entry, its last one
      once it is used up, nothing for an empty list. */
  function Wait(bs: seq<int>, k: nat): int {
    if |bs| == 0 then 0 else if k < |bs| then 1_000_000 * bs[k] else 1_000_000 * bs[|bs| - 1]
  }

  lemma {:induction false} ConfigurationIsUnique(w: World, queue: string, q: QueueConfig)
    ensures Configured(w, queue, q) <==> q == QueuePolicy(w, queue)
  {
  }

  /** The merged policy has exactly these tries, this list and this timeout. */
  lemma {:induction false} PolicyIsMerged(w: World, r: Record)
    requires r.jobClass in w.classes
    ensures var p := ResolvePolicy(w, r, w.classes[r.jobClass]);
            HasTries(w, r, p.tries) && HasBackoff(w, r, p.backoff) && HasTimeout(w, r, p.timeout)
    ensures forall n | HasTries(w, r, n) :: n == ResolvePolicy(w, r, w.classes[r.jobClass]).tries
    ensures forall bs | HasBackoff(w, r, bs) :: bs == ResolvePolicy(w, r, w.classes[r.jobClass]).backoff
    ensures forall t | HasTimeout(w, r, t) :: t == ResolvePolicy(w, r, w.classes[r.jobClass]).timeout
  {
    forall q ensures Configured(w, r.queue, q) <==> q == QueuePolicy(w, r.queue) {
      ConfigurationIsUnique(w, r.queue, q);
    }
  }

  lemma {:induction false} WaitIsDelay(p: Policy, k: nat)
    ensures Delay(p, k) == Wait(p.backoff, k)
  {
  }

  // ------------------------------------------------------------ one failed run

  /** A run that failed is followed by another one exactly if the deadline, if there is
      one, has not come and a try is left; the record then waits its turn, with one more
      attempt and nothing else changed. Otherwise it goes to the failed pool. */
  lemma {:induction false} FailureIsRetriedIff(w: World, s: System, f: nat, d: nat, n: int, bs: seq<int>)
    requires Enabled(w, s, Fail(f, d))
    requires HasTries(w, s.flights[f].record, n) && HasBackoff(w, s.flights[f].record, bs)
    ensures var r, s' := s.flights[f].record, Next(w, s, Fail(f, d));
            var deadline := w.classes[r.jobClass].retryUntil;
            && s'.now == s.now + d && s'.flights == Remove(s.flights, f) && s'.done == s.done
            && if (deadline.None? || s.now < r.queuedAt + deadline.value) && r.attempts + 1 < n then
                 s'.failed == s.failed && |s'.pending| == |s.pending| + 1 && s'.pending[..|s.pending|] == s.pending &&
                 s'.pending[|s.pending|].record ==
                   r.(attempts := r.attempts + 1, availableAt := s.now + d + Wait(bs, r.attempts))
               else
                 s'.pending == s.pending && |s'.failed| == |s.failed| + 1 && s'.failed[..|s.failed|] == s.failed &&
                 s'.failed[|s.failed|].record == r
  {
    var r := s.flights[f].record;
    PolicyIsMerged(w, r);
    WaitIsDelay(ResolvePolicy(w, r, w.classes[r.jobClass]), r.attempts);
  }

  /** A record can be popped exactly if it is available, in a listed queue, and no record
      of a queue listed earlier is available. */
  lemma {:induction false} PopRespectsPriority(w: World, s: System, worker: nat, queues: seq<string>, i: nat)
    ensures Enabled(w, s, Pop(worker, queues, i)) <==>
              i < |s.pending| && s.pending[i].record.availableAt <= s.now &&
              exists q | 0 <= q < |queues| :: queues[q] == s.pending[i].record.queue &&
                forall j, p | 0 <= j < |s.pending| && 0 <= p < q && s.pending[j].record.queue == queues[p] ::
                  s.now < s.pending[j].record.availableAt
  {
    if Enabled(w, s, Pop(worker, queues, i)) {
      var q :| 0 <= q < |queues| && Due(s.pending[i], queues[q], s.now) &&
        forall j, p | 0 <= j < |s.pending| && 0 <= p < q :: !Due(s.pending[j], queues[p], s.now);
      forall j, p | 0 <= j < |s.pending| && 0 <= p < q && s.pending[j].record.queue == queues[p]
        ensures s.now < s.pending[j].record.availableAt
      {
        assert !Due(s.pending[j], queues[p], s.now);
      }
    } else if i < |s.pending| && s.pending[i].record.availableAt <= s.now {
      forall q | 0 <= q < |queues| && queues[q] == s.pending[i].record.queue
        ensures exists j, p :: 0 <= j < |s.pending| && 0 <= p < q && s.pending[j].record.queue == queues[p] &&
                               s.pending[j].record.availableAt <= s.now
      {
        assert Due(s.pending[i], queues[q], s.now);
        var j, p :| 0 <= j < |s.pending| && 0 <= p < q && Due(s.pending[j], queues[p], s.now);
      }
    }
  }

  // ----------------------------------------------------------------- whole runs

  /** The handler of a job is started at most max(1, n) times, and exactly that often if
      it fails by its handler without a deadline. */
  lemma {:induction false} RunsFollowTries(w: World, ss: seq<System>, es: seq<Step>, i: nat, id: nat, n: int)
    requires IsRun(w, ss, es) && i <= |es| && id in ss[i].ledger && HasTries(w, ss[i].ledger[id].origin, n)
    ensures |ss[i].ledger[id].runs| <= Max(1, n)
    ensures forall it | it in ss[i].failed && it.record.id == id && it.place != Failed(Unresolvable) &&
                        w.classes[ss[i].ledger[id].origin.jobClass].retryUntil.None? ::
              |ss[i].ledger[id].runs| == Max(1, n)
  {
    RunsAreBounded(w, ss, es, i, id);
    PolicyIsMerged(w, ss[i].ledger[id].origin);
    forall it | it in ss[i].failed && it.record.id == id && it.place != Failed(Unresolvable) &&
                w.classes[ss[i].ledger[id].origin.jobClass].retryUntil.None?
      ensures |ss[i].ledger[id].runs| == Max(1, n)
    {
      RetriesKeepTheJob(w, ss, es, i, it);
      FailureUsesAllTries(w, ss, es, i, it);
      SamePolicy(w, it.record, ss[i].ledger[id].origin);
    }
  }

  /** The first `k` waits together. */
  function Waited(bs: seq<int>, k: nat): int {
    if k == 0 then 0 else Waited(bs, k - 1) + Wait(bs, k - 1)
  }

  lemma {:induction false} WaitsAreWaited(p: Policy, k: nat)
    ensures Waits(p, k) == Waited(p.backoff, k)
  {
    if k > 0 {
      WaitsAreWaited(p, k - 1);
      WaitIsDelay(p, k - 1);
    }
  }

  /** For a job dispatched at step `d`, start number `k`, counted from 0, is no earlier
      than its dispatch, its delay and the first `k` waits together, and no earlier than
      one wait after the start before. */
  lemma {:induction false} RunsFollowBackoff(
    w: World, ss: seq<System>, es: seq<Step>, d: nat, i: nat, k: nat, bs: seq<int>)
    requires IsRun(w, ss, es) && d < i <= |es| && es[d].Dispatch? && es[d].id in ss[i].ledger
    requires k < |ss[i].ledger[es[d].id].runs| && HasBackoff(w, ss[i].ledger[es[d].id].origin, bs)
    ensures var runs, delay := ss[i].ledger[es[d].id].runs, if es[d].delay.Some? then es[d].delay.value else 0;
            && ss[d].now + delay + Waited(bs, k) <= runs[k]
            && (k > 0 ==> runs[k - 1] + Wait(bs, k - 1) <= runs[k])
  {
    var id := es[d].id;
    OriginIsDispatched(w, ss, es, d, i);
    RunsAreSpaced(w, ss, es, i, id, k);
    PolicyIsMerged(w, ss[i].ledger[id].origin);
    var p := PolicyOf(w, ss[i].ledger[id].origin);
    WaitsAreWaited(p, k);
    if k > 0 {
      WaitIsDelay(p, k - 1);
    }
  }

  /** A dispatched job starts out with no attempts, queued now, available now or after its
      delay, and waiting in the queue it was dispatched to. */
  lemma {:induction false} DispatchedRecord(w: World, ss: seq<System>, es: seq<Step>, d: nat, i: nat)
    requires IsRun(w, ss, es) && d < i <= |es| && es[d].Dispatch?
    ensures var e, now := es[d], ss[d].now;
            var available := if e.delay.Some? then now + e.delay.value else now;
            var r := Record(e.id, e.jobClass, e.payload, e.queue, 0, now, available);
            && e.id in ss[i].ledger && ss[i].ledger[e.id].origin == r
            && (i == d + 1 ==> ss[i].pending == ss[d].pending + [Item(r, Waiting)])
  {
    OriginIsDispatched(w, ss, es, d, i);
    assert Leads(w, ss[d], es[d], ss[d + 1]);
  }
}
