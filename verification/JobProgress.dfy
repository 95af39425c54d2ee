/** Progress: every job reaches its acknowledgement or failure in finitely many steps. */
module JobProgress {
  import opened Arithmetic
  import opened Options
  import opened Jobs
  import opened JobRuns

  /** The step processes the job `id`: it is popped, rejected, started, or its run ends. */
  predicate Acts(s: System, e: Step, id: nat) {
    match e
    case Tick(_) => false
    case Dispatch(_, _, _, _, _) => false
    case Pop(_, _, i) => i < |s.pending| && s.pending[i].record.id == id
    case Reject(f) => f < |s.flights| && s.flights[f].record.id == id
    case Start(f) => f < |s.flights| && s.flights[f].record.id == id
    case Succeed(f) => f < |s.flights| && s.flights[f].record.id == id
    case Fail(f, _) => f < |s.flights| && s.flights[f].record.id == id
  }

  /** The job has been acknowledged or has failed. */
  ghost predicate Over(s: System, id: nat) {
    id in Census(s.done) || id in Census(s.failed)
  }

  lemma {:induction false} ActsCount(w: World, s: System, e: Step, id: nat)
    requires Enabled(w, s, e) && Conserved(s) && id in s.ledger
    ensures id in Next(w, s, e).ledger && Next(w, s, e).ledger[id].origin == s.ledger[id].origin
    ensures Next(w, s, e).ledger[id].steps == s.ledger[id].steps + (if Acts(s, e, id) then 1 else 0)
  {
  }

  lemma {:induction false} NothingAfterwards(s: System, e: Step, id: nat)
    requires Conserved(s) && Over(s, id)
    ensures !Acts(s, e, id)
  {
    assert Everywhere(s)[id] == multiset(s.ledger.Keys)[id] <= 1;
    if e.Pop? && e.i < |s.pending| {
      InCensus(s.pending, e.i);
    } else if (e.Reject? || e.Start? || e.Succeed? || e.Fail?) && e.f < |s.flights| {
      InCensus(s.flights, e.f);
    }
  }

  lemma {:induction false} OverWhere(s: System, it: Item)
    requires it in s.done || it in s.failed
    ensures Over(s, it.record.id)
  {
    if it in s.done {
      var i :| 0 <= i < |s.done| && s.done[i] == it;
      InCensus(s.done, i);
    } else {
      var i :| 0 <= i < |s.failed| && s.failed[i] == it;
      InCensus(s.failed, i);
    }
  }

  /** A job that is not over has a next step, which is due when its record is available. */
  lemma {:induction false} NextAct(w: World, s: System, id: nat) returns (d: nat, e: Step)
    requires Sound(w, s) && id in s.ledger && !Over(s, id)
    ensures Enabled(w, Next(w, s, Tick(d)), e) && Acts(Next(w, s, Tick(d)), e, id)
    ensures s.ledger[id].steps < 3 * Most(w, s.ledger[id].origin)
  {
    d, e := 0, Tick(0);
    var it := Find(w, s, id);
    if it in s.pending {
      var i :| 0 <= i < |s.pending| && s.pending[i] == it;
      d := AtLeast0(it.record.availableAt - s.now);
      var queues := [it.record.queue];
      assert Due(s.pending[i], queues[0], s.now + d);
      e := Pop(0, queues, i);
    } else if it in s.flights {
      var f :| 0 <= f < |s.flights| && s.flights[f] == it;
      e := if it.place.Popped? then Reject(f) else Succeed(f);
    } else {
      OverWhere(s, it);
      assert false;
    }
  }

  // ----------------------------------------------------------------- whole runs

  /** The number of steps `i` to `n` that process the job. */
  function ActsIn(ss: seq<System>, es: seq<Step>, id: nat, i: nat, n: nat): nat
    requires i <= n <= |es| && |ss| == |es| + 1
  {
    if i == n then 0 else ActsIn(ss, es, id, i, n - 1) + (if Acts(ss[n - 1], es[n - 1], id) then 1 else 0)
  }

  lemma {:induction false} RunActs(w: World, ss: seq<System>, es: seq<Step>, id: nat, k: nat)
    requires IsRun(w, ss, es) && k < |es| && id in ss[k].ledger
    ensures id in ss[k + 1].ledger && ss[k + 1].ledger[id].origin == ss[k].ledger[id].origin
    ensures ss[k + 1].ledger[id].steps == ss[k].ledger[id].steps + (if Acts(ss[k], es[k], id) then 1 else 0)
  {
    RunIsSound(w, ss, es, k);
    assert Leads(w, ss[k], es[k], ss[k + 1]);
    ActsCount(w, ss[k], es[k], id);
  }

  lemma {:induction false} StepsAreActs(w: World, ss: seq<System>, es: seq<Step>, id: nat, i: nat, n: nat)
    requires IsRun(w, ss, es) && i <= n <= |es| && id in ss[i].ledger
    ensures id in ss[n].ledger && ss[n].ledger[id].origin == ss[i].ledger[id].origin
    ensures ss[n].ledger[id].steps == ss[i].ledger[id].steps + ActsIn(ss, es, id, i, n)
    decreases n
  {
    if i < n {
      StepsAreActs(w, ss, es, id, i, n - 1);
      RunActs(w, ss, es, id, n - 1);
    }
  }

  /** Every job ends: whatever else happens, it is over by the time it has been processed
      `3 * max(1, tries)` times, and until it is over a next step for it is there; once it
      is over there is none. */
  lemma {:induction false} EveryJobEnds(w: World, ss: seq<System>, es: seq<Step>, id: nat, i: nat, n: nat)
    requires IsRun(w, ss, es) && i <= n <= |es| && id in ss[i].ledger
    ensures ActsIn(ss, es, id, i, n) >= 3 * Most(w, ss[i].ledger[id].origin) ==> Over(ss[n], id)
    ensures !Over(ss[n], id) ==>
              exists d: nat, e :: Enabled(w, Next(w, ss[n], Tick(d)), e) && Acts(Next(w, ss[n], Tick(d)), e, id)
    ensures Over(ss[n], id) ==> forall e :: !Acts(ss[n], e, id)
  {
    StepsAreActs(w, ss, es, id, i, n);
    RunIsSound(w, ss, es, n);
    if Over(ss[n], id) {
      forall e ensures !Acts(ss[n], e, id) {
        NothingAfterwards(ss[n], e, id);
      }
    } else {
      var d, e := NextAct(w, ss[n], id);
    }
  }
}
