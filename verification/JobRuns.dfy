/**
 What holds over every run of any number of workers: records are conserved, retries
 are bounded and spaced, and a retry changes nothing but its attempt count and time.
 */
module JobRuns {
  import opened Options
  import opened Jobs

  // ---------------------------------------------------------- the policy of a record

  function PolicyOf(w: World, r: Record): Policy {
    if r.jobClass in w.classes then ResolvePolicy(w, r, w.classes[r.jobClass]) else Policy(1, 60, [])
  }

  /** The handler of a record runs at most this often. */
  function Most(w: World, r: Record): nat {
    var tries := PolicyOf(w, r).tries;
    if tries < 1 then 1 else tries
  }

  /** The total of the first `k` backoff delays. */
  function Waits(p: Policy, k: nat): int {
    if k == 0 then 0 else Waits(p, k - 1) + Delay(p, k - 1)
  }

  /** Run `k + 1` starts no earlier than the dispatch delay and `k` backoffs allow. */
  predicate NotBefore(w: World, o: Record, k: nat, t: int) {
    o.availableAt + Waits(PolicyOf(w, o), k) <= t
  }

  predicate BeforeDeadline(w: World, o: Record, t: int) {
    o.jobClass in w.classes && w.classes[o.jobClass].retryUntil.Some? ==>
      t < o.queuedAt + w.classes[o.jobClass].retryUntil.value
  }

  // ------------------------------------------------------------ where a record sits

  /** A retry keeps everything but the attempt count and the time it is available. */
  predicate SameJob(r: Record, o: Record) {
    r == o.(attempts := r.attempts, availableAt := r.availableAt)
  }

  /** Run `k` came late enough; a run after it is a backoff later, and was decided
      before the deadline. */
  predicate RunFits(w: World, o: Record, runs: seq<int>, k: nat)
    requires k < |runs|
  {
    NotBefore(w, o, k, runs[k]) &&
    (k < |runs| - 1 ==> BeforeDeadline(w, o, runs[k]) && runs[k] + Delay(PolicyOf(w, o), k) <= runs[k + 1])
  }

  ghost predicate Timely(w: World, o: Record, runs: seq<int>) {
    forall k: nat | k < |runs| :: RunFits(w, o, runs, k)
  }

  /** The latest run of a record that will run again was before the deadline, and
      its backoff is over when the record becomes available at `t`. */
  ghost predicate Rested(w: World, o: Record, runs: seq<int>, t: int) {
    && NotBefore(w, o, |runs|, t)
    && (runs != [] ==>
          BeforeDeadline(w, o, runs[|runs| - 1]) &&
          runs[|runs| - 1] + Delay(PolicyOf(w, o), |runs| - 1) <= t)
  }

  ghost predicate Sits(w: World, now: int, l: Ledger, it: Item) {
    var r, a := it.record, it.record.attempts;
    && SameJob(r, l.origin) && a < Most(w, l.origin) && Timely(w, l.origin, l.runs)
    && match it.place
       case Waiting => |l.runs| == a && l.steps == 3 * a && Rested(w, l.origin, l.runs, r.availableAt)
       case Popped(_) =>
         |l.runs| == a && l.steps == 3 * a + 1 && Rested(w, l.origin, l.runs, r.availableAt) && r.availableAt <= now
       case Running(_) => |l.runs| == a + 1 && l.steps == 3 * a + 2 && l.runs[a] <= now
       case Acked => |l.runs| == a + 1 && l.steps == 3 * a + 3
       case Failed(Unresolvable) => |l.runs| == a && l.steps == 3 * a + 2
       case Failed(Exhausted) => |l.runs| == a + 1 == Most(w, l.origin) && l.steps == 3 * a + 3
       case Failed(PastDeadline) =>
         |l.runs| == a + 1 && l.steps == 3 * a + 3 &&
         l.origin.jobClass in w.classes && w.classes[l.origin.jobClass].retryUntil.Some?
  }

  // ------------------------------------------------------------------- the census

  function Ids(xs: seq<Item>): seq<nat> {
    seq(|xs|, i requires 0 <= i < |xs| => xs[i].record.id)
  }

  function Census(xs: seq<Item>): multiset<nat> {
    multiset(Ids(xs))
  }

  function Everywhere(s: System): multiset<nat> {
    Census(s.pending) + Census(s.flights) + Census(s.done) + Census(s.failed)
  }

  lemma {:induction false} CensusAppend(xs: seq<Item>, it: Item)
    ensures Census(xs + [it]) == Census(xs) + multiset{it.record.id}
  {
    assert Ids(xs + [it]) == Ids(xs) + [it.record.id];
  }

  lemma {:induction false} CensusRemove(xs: seq<Item>, i: nat)
    requires i < |xs|
    ensures Census(xs) == Census(Remove(xs, i)) + multiset{xs[i].record.id}
  {
    assert Ids(xs) == Ids(xs)[..i] + [xs[i].record.id] + Ids(xs)[i + 1..];
    assert Ids(Remove(xs, i)) == Ids(xs)[..i] + Ids(xs)[i + 1..];
  }

  lemma {:induction false} InCensus(xs: seq<Item>, i: nat)
    requires i < |xs|
    ensures xs[i].record.id in Census(xs)
  {
    assert Ids(xs)[i] == xs[i].record.id;
  }

  /** Every dispatched id is in exactly one pool, exactly once. */
  ghost predicate Conserved(s: System) {
    Everywhere(s) == multiset(s.ledger.Keys)
  }

  lemma {:induction false} MoveKeepsCensus(xs: seq<Item>, i: nat, ys: seq<Item>, it: Item)
    requires i < |xs| && it.record.id == xs[i].record.id
    ensures Census(Remove(xs, i)) + Census(ys + [it]) == Census(xs) + Census(ys)
  {
    CensusRemove(xs, i);
    CensusAppend(ys, it);
  }

  lemma {:induction false} NotingKeepsIds(s: System, id: nat)
    requires id in s.ledger
    ensures Noted(s.ledger, id).Keys == s.ledger.Keys && Started(s.ledger, id, s.now).Keys == s.ledger.Keys
  {
  }

  lemma {:induction false} DispatchConserves(w: World, s: System, e: Step)
    requires Enabled(w, s, e) && Conserved(s) && e.Dispatch?
    ensures Conserved(Next(w, s, e))
  {
    var s' := Next(w, s, e);
    CensusAppend(s.pending, s'.pending[|s.pending|]);
    assert s'.ledger.Keys == s.ledger.Keys + {e.id};
    assert multiset(s'.ledger.Keys) == multiset(s.ledger.Keys) + multiset{e.id};
    assert Everywhere(s') == Everywhere(s) + multiset{e.id};
  }

  lemma {:induction false} PopConserves(w: World, s: System, e: Step)
    requires Enabled(w, s, e) && Conserved(s) && e.Pop?
    ensures Conserved(Next(w, s, e))
  {
    InCensus(s.pending, e.i);
    assert s.pending[e.i].record.id in Everywhere(s);
    NotingKeepsIds(s, s.pending[e.i].record.id);
    MoveKeepsCensus(s.pending, e.i, s.flights, Next(w, s, e).flights[|s.flights|]);
  }

  /** Regrouping a sum of pools in which one pair was exchanged. */
  lemma {:induction false} Regroup(p: multiset<nat>, q: multiset<nat>, f: multiset<nat>, x: multiset<nat>,
                                   f': multiset<nat>, x': multiset<nat>)
    requires f' + x' == f + x
    ensures p + f' + q + x' == p + f + q + x
    ensures x' + f' + p + q == x + f + p + q
    ensures p + f' + x' + q == p + f + x + q
  {
    assert p + f' + q + x' == p + q + (f' + x');
    assert x' + f' + p + q == p + q + (f' + x');
    assert p + f' + x' + q == p + q + (f' + x');
  }

  lemma {:induction false} LandingKeepsEveryone(w: World, s: System, e: Step)
    requires Enabled(w, s, e) && (e.Reject? || e.Succeed? || e.Fail?)
    ensures Everywhere(Next(w, s, e)) == Everywhere(s)
  {
    var s' := Next(w, s, e);
    var p, f, d, x := Census(s.pending), Census(s.flights), Census(s.done), Census(s.failed);
    if s'.failed != s.failed {
      MoveKeepsCensus(s.flights, e.f, s.failed, s'.failed[|s.failed|]);
      Regroup(p, d, f, x, Census(s'.flights), Census(s'.failed));
    } else if s'.done != s.done {
      MoveKeepsCensus(s.flights, e.f, s.done, s'.done[|s.done|]);
      Regroup(p, x, f, d, Census(s'.flights), Census(s'.done));
    } else {
      MoveKeepsCensus(s.flights, e.f, s.pending, s'.pending[|s.pending|]);
      Regroup(d, x, f, p, Census(s'.flights), Census(s'.pending));
    }
  }

  lemma {:induction false} FlightConserves(w: World, s: System, e: Step)
    requires Enabled(w, s, e) && Conserved(s) && (e.Reject? || e.Start? || e.Succeed? || e.Fail?)
    ensures Conserved(Next(w, s, e))
  {
    InCensus(s.flights, e.f);
    assert s.flights[e.f].record.id in Everywhere(s);
    NotingKeepsIds(s, s.flights[e.f].record.id);
    if e.Start? {
      CensusRemove(s.flights, e.f);
      CensusAppend(Remove(s.flights, e.f), Next(w, s, e).flights[|s.flights| - 1]);
    } else {
      LandingKeepsEveryone(w, s, e);
    }
  }

  // ------------------------------------------------------------------ all records

  ghost predicate AllSit(w: World, now: int, ledger: map<nat, Ledger>, xs: seq<Item>) {
    forall i | 0 <= i < |xs| :: xs[i].record.id in ledger && Sits(w, now, ledger[xs[i].record.id], xs[i])
  }

  ghost predicate Placed(s: System) {
    && (forall i | 0 <= i < |s.pending| :: s.pending[i].place.Waiting?)
    && (forall i | 0 <= i < |s.flights| :: s.flights[i].place.Popped? || s.flights[i].place.Running?)
    && (forall i | 0 <= i < |s.done| :: s.done[i].place.Acked?)
    && (forall i | 0 <= i < |s.failed| :: s.failed[i].place.Failed?)
  }

  ghost predicate Sound(w: World, s: System) {
    && Conserved(s) && Placed(s)
    && AllSit(w, s.now, s.ledger, s.pending) && AllSit(w, s.now, s.ledger, s.flights)
    && AllSit(w, s.now, s.ledger, s.done) && AllSit(w, s.now, s.ledger, s.failed)
  }

  lemma {:induction false} AllSitRemove(w: World, now: int, ledger: map<nat, Ledger>, xs: seq<Item>, i: nat)
    requires i < |xs| && AllSit(w, now, ledger, xs)
    ensures AllSit(w, now, ledger, Remove(xs, i))
  {
  }

  /** Records of other ids are not touched by what happens to one id. */
  lemma {:induction false} OthersSit(
    w: World, now: int, later: int, ledger: map<nat, Ledger>, ledger': map<nat, Ledger>, xs: seq<Item>, id: nat)
    requires AllSit(w, now, ledger, xs) && now <= later && id !in Census(xs)
    requires forall x | x in ledger && x != id :: x in ledger' && ledger'[x] == ledger[x]
    ensures AllSit(w, later, ledger', xs)
  {
    forall i | 0 <= i < |xs|
      ensures xs[i].record.id in ledger' && Sits(w, later, ledger'[xs[i].record.id], xs[i])
    {
      InCensus(xs, i);
    }
  }

  // --------------------------------------------------- what each step does to a record

  lemma {:induction false} SamePolicy(w: World, r: Record, o: Record)
    requires SameJob(r, o)
    ensures PolicyOf(w, r) == PolicyOf(w, o) && Most(w, r) == Most(w, o)
  {
  }

  lemma {:induction false} PoppedSits(w: World, now: int, l: Ledger, it: Item, worker: nat)
    requires Sits(w, now, l, it) && it.place.Waiting? && it.record.availableAt <= now
    ensures Sits(w, now, l.(steps := l.steps + 1), Item(it.record, Popped(worker)))
  {
  }

  lemma {:induction false} LeftSits(w: World, now: int, l: Ledger, it: Item)
    requires Sits(w, now, l, it)
    ensures it.place.Popped? ==> Sits(w, now, l.(steps := l.steps + 1), Item(it.record, Failed(Unresolvable)))
    ensures it.place.Running? ==> Sits(w, now, l.(steps := l.steps + 1), Item(it.record, Acked))
  {
  }

  lemma {:induction false} TimelyRun(w: World, o: Record, runs: seq<int>, t: int, now: int)
    requires Timely(w, o, runs) && Rested(w, o, runs, t) && t <= now
    ensures Timely(w, o, runs + [now])
  {
    var runs' := runs + [now];
    forall k: nat | k < |runs'| ensures RunFits(w, o, runs', k) {
      if k < |runs| {
        assert RunFits(w, o, runs, k);
      }
    }
  }

  lemma {:induction false} StartedSits(w: World, now: int, l: Ledger, it: Item)
    requires Sits(w, now, l, it) && it.place.Popped?
    ensures Sits(w, now, l.(steps := l.steps + 1, runs := l.runs + [now]), Item(it.record, Running(it.place.worker)))
  {
    TimelyRun(w, l.origin, l.runs, it.record.availableAt, now);
  }

  lemma {:induction false} RestedRetry(w: World, o: Record, runs: seq<int>, now: int, later: int)
    requires Timely(w, o, runs) && runs != [] && runs[|runs| - 1] <= now <= later && BeforeDeadline(w, o, now)
    ensures Rested(w, o, runs, later + Delay(PolicyOf(w, o), |runs| - 1))
  {
    assert RunFits(w, o, runs, |runs| - 1);
  }

  lemma {:induction false} JudgedSits(w: World, now: int, later: int, l: Ledger, it: Item)
    requires Sits(w, now, l, it) && it.place.Running? && now <= later && it.record.jobClass in w.classes
    ensures var r := it.record;
            var j := w.classes[r.jobClass];
            match Judge(r, j, ResolvePolicy(w, r, j), now, later)
            case GiveUp(reason) => Sits(w, later, l.(steps := l.steps + 1), Item(r, Failed(reason)))
            case Again(retry) =>
              retry.id == r.id && retry.attempts == r.attempts + 1 &&
              Sits(w, later, l.(steps := l.steps + 1), Item(retry, Waiting))
  {
    SamePolicy(w, it.record, l.origin);
    if BeforeDeadline(w, l.origin, now) {
      RestedRetry(w, l.origin, l.runs, now, later);
    }
  }

  // ------------------------------------------------------------- every step

  lemma {:induction false} AloneInFlight(s: System, f: nat)
    requires Conserved(s) && f < |s.flights|
    ensures var id := s.flights[f].record.id;
            id in s.ledger && id !in Census(s.pending) && id !in Census(Remove(s.flights, f)) &&
            id !in Census(s.done) && id !in Census(s.failed)
  {
    var id := s.flights[f].record.id;
    CensusRemove(s.flights, f);
    assert Everywhere(s)[id] == multiset(s.ledger.Keys)[id] <= 1;
  }

  lemma {:induction false} AloneInPending(s: System, i: nat)
    requires Conserved(s) && i < |s.pending|
    ensures var id := s.pending[i].record.id;
            id in s.ledger && id !in Census(Remove(s.pending, i)) && id !in Census(s.flights) &&
            id !in Census(s.done) && id !in Census(s.failed)
  {
    var id := s.pending[i].record.id;
    CensusRemove(s.pending, i);
    assert Everywhere(s)[id] == multiset(s.ledger.Keys)[id] <= 1;
  }

  lemma {:induction false} AllSitAppend(w: World, now: int, ledger: map<nat, Ledger>, xs: seq<Item>, it: Item)
    requires AllSit(w, now, ledger, xs) && it.record.id in ledger && Sits(w, now, ledger[it.record.id], it)
    ensures AllSit(w, now, ledger, xs + [it])
  {
  }

  /** The four pools with one item taken out all sit after the id's ledger changed. */
  lemma {:induction false} RestSits(w: World, s: System, now: int, ledger: map<nat, Ledger>, id: nat,
                                    pending: seq<Item>, flights: seq<Item>)
    requires AllSit(w, s.now, s.ledger, pending) && AllSit(w, s.now, s.ledger, flights)
    requires AllSit(w, s.now, s.ledger, s.done) && AllSit(w, s.now, s.ledger, s.failed) && s.now <= now
    requires id !in Census(pending) && id !in Census(flights) && id !in Census(s.done) && id !in Census(s.failed)
    requires forall x | x in s.ledger && x != id :: x in ledger && ledger[x] == s.ledger[x]
    ensures AllSit(w, now, ledger, pending) && AllSit(w, now, ledger, flights)
    ensures AllSit(w, now, ledger, s.done) && AllSit(w, now, ledger, s.failed)
  {
    OthersSit(w, s.now, now, s.ledger, ledger, pending, id);
    OthersSit(w, s.now, now, s.ledger, ledger, flights, id);
    OthersSit(w, s.now, now, s.ledger, ledger, s.done, id);
    OthersSit(w, s.now, now, s.ledger, ledger, s.failed, id);
  }

  lemma {:induction false} DispatchIsSound(w: World, s: System, e: Step)
    requires Enabled(w, s, e) && Sound(w, s) && e.Dispatch?
    ensures Sound(w, Next(w, s, e))
  {
    var s' := Next(w, s, e);
    DispatchConserves(w, s, e);
    assert forall x :: x in Everywhere(s) <==> x in s.ledger;
    RestSits(w, s, s.now, s'.ledger, e.id, s.pending, s.flights);
    var it := s'.pending[|s.pending|];
    assert Waits(PolicyOf(w, it.record), 0) == 0;
    AllSitAppend(w, s.now, s'.ledger, s.pending, it);
  }

  lemma {:induction false} PoppedLands(w: World, s: System, i: nat, worker: nat)
    requires Sound(w, s) && i < |s.pending| && s.pending[i].record.availableAt <= s.now
    ensures var r := s.pending[i].record;
            var ledger := Noted(s.ledger, r.id);
            AllSit(w, s.now, ledger, Remove(s.pending, i)) &&
            AllSit(w, s.now, ledger, s.flights + [Item(r, Popped(worker))]) &&
            AllSit(w, s.now, ledger, s.done) && AllSit(w, s.now, ledger, s.failed)
  {
    var it := s.pending[i];
    var ledger := Noted(s.ledger, it.record.id);
    AloneInPending(s, i);
    AllSitRemove(w, s.now, s.ledger, s.pending, i);
    RestSits(w, s, s.now, ledger, it.record.id, Remove(s.pending, i), s.flights);
    PoppedSits(w, s.now, s.ledger[it.record.id], it, worker);
    AllSitAppend(w, s.now, ledger, s.flights, Item(it.record, Popped(worker)));
  }

  lemma {:induction false} PopIsSound(w: World, s: System, e: Step)
    requires Enabled(w, s, e) && Sound(w, s) && e.Pop?
    ensures Sound(w, Next(w, s, e))
  {
    PopConserves(w, s, e);
    PoppedLands(w, s, e.i, e.worker);
  }

  lemma {:induction false} FlightLeavesOthers(w: World, s: System, e: Step)
    requires Enabled(w, s, e) && Sound(w, s) && (e.Reject? || e.Start? || e.Succeed? || e.Fail?)
    ensures var it := s.flights[e.f]; it.record.id in s.ledger && Sits(w, s.now, s.ledger[it.record.id], it)
    ensures var s' := Next(w, s, e);
            AllSit(w, s'.now, s'.ledger, s.pending) && AllSit(w, s'.now, s'.ledger, Remove(s.flights, e.f)) &&
            AllSit(w, s'.now, s'.ledger, s.done) && AllSit(w, s'.now, s'.ledger, s.failed)
  {
    var s' := Next(w, s, e);
    var it := s.flights[e.f];
    AloneInFlight(s, e.f);
    AllSitRemove(w, s.now, s.ledger, s.flights, e.f);
    RestSits(w, s, s'.now, s'.ledger, it.record.id, s.pending, Remove(s.flights, e.f));
  }

  lemma {:induction false} FailedLands(w: World, s: System, e: Step)
    requires Enabled(w, s, e) && e.Fail? && Placed(s)
    requires var it := s.flights[e.f]; it.record.id in s.ledger && Sits(w, s.now, s.ledger[it.record.id], it)
    requires var s' := Next(w, s, e);
             AllSit(w, s'.now, s'.ledger, s.pending) && AllSit(w, s'.now, s'.ledger, s.failed)
    ensures var s' := Next(w, s, e);
            Placed(s') && AllSit(w, s'.now, s'.ledger, s'.pending) && AllSit(w, s'.now, s'.ledger, s'.failed)
  {
    var s' := Next(w, s, e);
    var it := s.flights[e.f];
    JudgedSits(w, s.now, s'.now, s.ledger[it.record.id], it);
    if |s'.failed| > |s.failed| {
      AllSitAppend(w, s'.now, s'.ledger, s.failed, s'.failed[|s.failed|]);
    } else {
      AllSitAppend(w, s'.now, s'.ledger, s.pending, s'.pending[|s.pending|]);
    }
  }

  lemma {:induction false} LandsSound(w: World, s: System, e: Step)
    requires Enabled(w, s, e) && (e.Reject? || e.Start? || e.Succeed? || e.Fail?) && Placed(s)
    requires var it := s.flights[e.f]; it.record.id in s.ledger && Sits(w, s.now, s.ledger[it.record.id], it)
    requires var s' := Next(w, s, e);
             AllSit(w, s'.now, s'.ledger, s.pending) && AllSit(w, s'.now, s'.ledger, Remove(s.flights, e.f)) &&
             AllSit(w, s'.now, s'.ledger, s.done) && AllSit(w, s'.now, s'.ledger, s.failed)
    ensures var s' := Next(w, s, e);
            Placed(s') && AllSit(w, s'.now, s'.ledger, s'.pending) && AllSit(w, s'.now, s'.ledger, s'.flights) &&
            AllSit(w, s'.now, s'.ledger, s'.done) && AllSit(w, s'.now, s'.ledger, s'.failed)
  {
    var s' := Next(w, s, e);
    var it := s.flights[e.f];
    var l := s.ledger[it.record.id];
    LeftSits(w, s.now, l, it);
    match e
    case Reject(f) => AllSitAppend(w, s'.now, s'.ledger, s.failed, s'.failed[|s.failed|]);
    case Start(f) =>
      StartedSits(w, s.now, l, it);
      AllSitAppend(w, s'.now, s'.ledger, Remove(s.flights, f), s'.flights[|s.flights| - 1]);
    case Succeed(f) => AllSitAppend(w, s'.now, s'.ledger, s.done, s'.done[|s.done|]);
    case Fail(_, _) => FailedLands(w, s, e);
  }

  lemma {:induction false} FlightIsSound(w: World, s: System, e: Step)
    requires Enabled(w, s, e) && Sound(w, s) && (e.Reject? || e.Start? || e.Succeed? || e.Fail?)
    ensures Sound(w, Next(w, s, e))
  {
    FlightConserves(w, s, e);
    FlightLeavesOthers(w, s, e);
    LandsSound(w, s, e);
  }

  lemma {:induction false} StepIsSound(w: World, s: System, e: Step)
    requires Enabled(w, s, e) && Sound(w, s)
    ensures Sound(w, Next(w, s, e)) && s.ledger.Keys <= Next(w, s, e).ledger.Keys
  {
    match e
    case Tick(_) =>
    case Dispatch(_, _, _, _, _) => DispatchIsSound(w, s, e);
    case Pop(_, _, _) => PopIsSound(w, s, e);
    case _ => FlightIsSound(w, s, e);
  }

  // -------------------------------------------------------------- whole runs

  predicate Initial(s: System) {
    s.pending == [] && s.flights == [] && s.done == [] && s.failed == [] && s.ledger == map[]
  }

  ghost predicate Leads(w: World, s: System, e: Step, s': System) {
    Enabled(w, s, e) && s' == Next(w, s, e)
  }

  ghost predicate IsRun(w: World, ss: seq<System>, es: seq<Step>) {
    |ss| == |es| + 1 && Initial(ss[0]) &&
    forall k, n {:trigger Leads(w, ss[k], es[k], ss[n])} | 0 <= k < |es| && n == k + 1 ::
      Leads(w, ss[k], es[k], ss[n])
  }

  lemma {:induction false} InitialIsSound(w: World, s: System)
    requires Initial(s)
    ensures Sound(w, s)
  {
    assert Ids([]) == [];
    assert Everywhere(s) == multiset{} == multiset(s.ledger.Keys);
  }

  lemma {:induction false} RunIsSound(w: World, ss: seq<System>, es: seq<Step>, i: nat)
    requires IsRun(w, ss, es) && i <= |es|
    ensures Sound(w, ss[i])
  {
    if i == 0 {
      InitialIsSound(w, ss[0]);
    } else {
      RunIsSound(w, ss, es, i - 1);
      assert Leads(w, ss[i - 1], es[i - 1], ss[i]);
      StepIsSound(w, ss[i - 1], es[i - 1]);
    }
  }

  // ------------------------------------------------------------ the theorems

  function Dispatched(es: seq<Step>, n: nat): set<nat>
    requires n <= |es|
  {
    if n == 0 then {}
    else Dispatched(es, n - 1) + (if es[n - 1].Dispatch? then {es[n - 1].id} else {})
  }

  lemma {:induction false} LedgerGrows(w: World, s: System, e: Step)
    requires Enabled(w, s, e) && Conserved(s)
    ensures Next(w, s, e).ledger.Keys == s.ledger.Keys + (if e.Dispatch? then {e.id} else {})
    ensures forall id | id in s.ledger :: Next(w, s, e).ledger[id].origin == s.ledger[id].origin
    ensures e.Dispatch? ==>
              Next(w, s, e).ledger[e.id].origin == Fresh(e.id, e.jobClass, e.payload, e.queue, e.delay, s.now)
  {
    match e
    case Tick(_) =>
    case Dispatch(_, _, _, _, _) =>
    case Pop(_, _, i) => InCensus(s.pending, i);
    case _ => InCensus(s.flights, e.f);
  }

  lemma {:induction false} RunLedger(w: World, ss: seq<System>, es: seq<Step>, k: nat)
    requires IsRun(w, ss, es) && k < |es|
    ensures ss[k + 1].ledger.Keys == ss[k].ledger.Keys + (if es[k].Dispatch? then {es[k].id} else {})
    ensures forall id | id in ss[k].ledger :: ss[k + 1].ledger[id].origin == ss[k].ledger[id].origin
    ensures var e := es[k];
            e.Dispatch? ==>
              ss[k + 1].ledger[e.id].origin == Fresh(e.id, e.jobClass, e.payload, e.queue, e.delay, ss[k].now)
  {
    RunIsSound(w, ss, es, k);
    assert Leads(w, ss[k], es[k], ss[k + 1]);
    LedgerGrows(w, ss[k], es[k]);
  }

  lemma {:induction false} LedgerIsDispatched(w: World, ss: seq<System>, es: seq<Step>, i: nat)
    requires IsRun(w, ss, es) && i <= |es|
    ensures ss[i].ledger.Keys == Dispatched(es, i)
  {
    if i > 0 {
      LedgerIsDispatched(w, ss, es, i - 1);
      RunLedger(w, ss, es, i - 1);
    }
  }

  /** Conservation: after any run, every dispatched id is in exactly one of pending,
      in flight, done and failed, exactly once, and no other id is anywhere. */
  lemma {:induction false} JobsAreConserved(w: World, ss: seq<System>, es: seq<Step>, i: nat)
    requires IsRun(w, ss, es) && i <= |es|
    ensures Everywhere(ss[i]) == multiset(Dispatched(es, i))
  {
    RunIsSound(w, ss, es, i);
    LedgerIsDispatched(w, ss, es, i);
  }

  /** The record of an id, wherever it is, is the dispatched one up to its attempt
      count and the time it is available. */
  lemma {:induction false} OriginIsDispatched(w: World, ss: seq<System>, es: seq<Step>, k: nat, i: nat)
    requires IsRun(w, ss, es) && k < i <= |es| && es[k].Dispatch?
    ensures var e := es[k];
            e.id in ss[i].ledger &&
            ss[i].ledger[e.id].origin == Fresh(e.id, e.jobClass, e.payload, e.queue, e.delay, ss[k].now)
    decreases i
  {
    RunLedger(w, ss, es, i - 1);
    if k < i - 1 {
      OriginIsDispatched(w, ss, es, k, i - 1);
    }
  }

  predicate Somewhere(s: System, it: Item) {
    it in s.pending || it in s.flights || it in s.done || it in s.failed
  }

  lemma {:induction false} AnyoneSits(w: World, s: System, it: Item)
    requires Sound(w, s) && Somewhere(s, it)
    ensures it.record.id in s.ledger && Sits(w, s.now, s.ledger[it.record.id], it)
  {
  }

  lemma {:induction false} InPool(xs: seq<Item>, id: nat) returns (it: Item)
    requires id in Census(xs)
    ensures it in xs && it.record.id == id
  {
    assert id in Ids(xs);
    var i :| 0 <= i < |Ids(xs)| && Ids(xs)[i] == id;
    it := xs[i];
  }

  lemma {:induction false} Find(w: World, s: System, id: nat) returns (it: Item)
    requires Sound(w, s) && id in s.ledger
    ensures Somewhere(s, it) && it.record.id == id && Sits(w, s.now, s.ledger[id], it)
  {
    assert id in Everywhere(s);
    if id in Census(s.pending) {
      it := InPool(s.pending, id);
    } else if id in Census(s.flights) {
      it := InPool(s.flights, id);
    } else if id in Census(s.done) {
      it := InPool(s.done, id);
    } else {
      it := InPool(s.failed, id);
    }
    AnyoneSits(w, s, it);
  }

  /** Wherever a record is, it is the dispatched job; its attempt count is the number
      of its runs, less the one that is going on or was its last. */
  lemma {:induction false} RetriesKeepTheJob(w: World, ss: seq<System>, es: seq<Step>, i: nat, it: Item)
    requires IsRun(w, ss, es) && i <= |es| && Somewhere(ss[i], it)
    ensures it.record.id in ss[i].ledger
    ensures var l := ss[i].ledger[it.record.id];
            SameJob(it.record, l.origin) &&
            |l.runs| == it.record.attempts +
              (if it.place.Waiting? || it.place.Popped? || it.place == Failed(Unresolvable) then 0 else 1)
  {
    RunIsSound(w, ss, es, i);
    AnyoneSits(w, ss[i], it);
  }

  /** Bounded retries: at most max(1, tries) runs, in at most three times as many steps. */
  lemma {:induction false} RunsAreBounded(w: World, ss: seq<System>, es: seq<Step>, i: nat, id: nat)
    requires IsRun(w, ss, es) && i <= |es| && id in ss[i].ledger
    ensures var l := ss[i].ledger[id]; |l.runs| <= Most(w, l.origin) && l.steps <= 3 * Most(w, l.origin)
  {
    RunIsSound(w, ss, es, i);
    var it := Find(w, ss[i], id);
  }

  /** A record that failed by running, without a deadline, has run exactly max(1, tries) times. */
  lemma {:induction false} FailureUsesAllTries(w: World, ss: seq<System>, es: seq<Step>, i: nat, it: Item)
    requires IsRun(w, ss, es) && i <= |es| && it in ss[i].failed && it.place != Failed(Unresolvable)
    requires it.record.jobClass in w.classes ==> w.classes[it.record.jobClass].retryUntil.None?
    ensures it.record.id in ss[i].ledger
    ensures |ss[i].ledger[it.record.id].runs| == Most(w, it.record)
  {
    RunIsSound(w, ss, es, i);
    AnyoneSits(w, ss[i], it);
    SamePolicy(w, it.record, ss[i].ledger[it.record.id].origin);
  }

  /** At most one run, the last, starts at or after the deadline. */
  lemma {:induction false} AtMostOneLateRun(w: World, ss: seq<System>, es: seq<Step>, i: nat, id: nat, k: nat)
    requires IsRun(w, ss, es) && i <= |es| && id in ss[i].ledger && k < |ss[i].ledger[id].runs| - 1
    ensures var l := ss[i].ledger[id]; BeforeDeadline(w, l.origin, l.runs[k])
  {
    RunIsSound(w, ss, es, i);
    var it := Find(w, ss[i], id);
    assert RunFits(w, ss[i].ledger[id].origin, ss[i].ledger[id].runs, k);
  }

  /** Run `k + 1` starts no earlier than dispatch, delay and `k` backoffs allow, and
      no earlier than one backoff after run `k`. */
  lemma {:induction false} RunsAreSpaced(w: World, ss: seq<System>, es: seq<Step>, i: nat, id: nat, k: nat)
    requires IsRun(w, ss, es) && i <= |es| && id in ss[i].ledger && k < |ss[i].ledger[id].runs|
    ensures var l := ss[i].ledger[id];
            l.origin.availableAt + Waits(PolicyOf(w, l.origin), k) <= l.runs[k] &&
            (k > 0 ==> l.runs[k - 1] + Delay(PolicyOf(w, l.origin), k - 1) <= l.runs[k])
  {
    RunIsSound(w, ss, es, i);
    var it := Find(w, ss[i], id);
    var l := ss[i].ledger[id];
    assert RunFits(w, l.origin, l.runs, k);
    if k > 0 {
      assert RunFits(w, l.origin, l.runs, k - 1);
    }
  }
}
