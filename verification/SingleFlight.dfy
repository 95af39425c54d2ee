/**
 `remember_with_lock`: any number of callers for one key, interleaved at every
 store access. A caller looks for the value, claims the stampede lock, looks
 again, and only then runs the factory, stores the value and releases the lock.
 Every step moves the lock by at most one step of `LockProtocol`.
 */
module SingleFlight {
  import opened Options
  import opened CacheStore
  import L = LockProtocol

  datatype Outcome = Returned(v: Value) | Failed

  datatype Pc =
    | Start                    // first look
    | Locking                  // in acquire
    | Checking                 // second look, lock held
    | Computing                // the factory runs
    | Saving(v: Value)         // about to store its value
    | Leaving(r: Outcome)      // release: about to read the token
    | Unlocking(r: Outcome)    // release: about to delete
    | Done(r: Outcome)

  datatype Flight = Flight(
    key: Key,
    ttl: Option<int>,
    lock: L.System,
    callers: seq<Pc>,
    started: nat,              // factory calls
    failed: nat,               // factory calls that raised
    computed: seq<Value>)      // values that factory calls returned

  function LockKey(k: Key): Key {
    k + ":stampede"
  }

  datatype Step =
    | Tick(d: nat)
    | Look(t: nat)
    | Acquire(e: L.Step)
    | Check(t: nat)
    | Compute(t: nat, v: Value)
    | Fail(t: nat)
    | Save(t: nat)
    | ReadToken(t: nat)
    | Unlock(t: nat)

  function TaskOf(e: L.Step): nat {
    match e
    case AddNatively(t) => t
    case TakeMutex(t) => t
    case ReadForAdd(t) => t
    case WriteForAdd(t) => t
    case Retry(t) => t
    case _ => 0
  }

  /** The steps of a blocking acquire without a timeout. */
  predicate IsAcquiring(e: L.Step) {
    e.AddNatively? || e.TakeMutex? || e.ReadForAdd? || e.WriteForAdd? || e.Retry?
  }

  predicate At(s: Flight, t: nat, p: Pc) {
    t < |s.callers| && s.callers[t] == p
  }

  predicate Enabled(s: Flight, e: Step) {
    |s.callers| == |s.lock.tasks| &&
    match e
    case Tick(_) => true
    case Look(t) => At(s, t, Start) && L.Enabled(s.lock, L.Begin(t))
    case Acquire(le) => IsAcquiring(le) && At(s, TaskOf(le), Locking) && L.Enabled(s.lock, le)
    case Check(t) => At(s, t, Checking)
    case Compute(t, _) => At(s, t, Computing)
    case Fail(t) => At(s, t, Computing)
    case Save(t) =>
      t < |s.callers| && s.callers[t].Saving? && L.Enabled(s.lock, L.Elsewhere(s.key, s.callers[t].v, s.ttl))
    case ReadToken(t) => t < |s.callers| && s.callers[t].Leaving? && L.Enabled(s.lock, L.ReadForRelease(t))
    case Unlock(t) => t < |s.callers| && s.callers[t].Unlocking? && L.Enabled(s.lock, L.Delete(t))
  }

  function Found(s: Flight): Option<Value> {
    Get(s.lock.store, s.key, s.lock.now)
  }

  /** What the step does to the lock, if anything. */
  function LockStep(s: Flight, e: Step): Option<L.Step>
    requires Enabled(s, e)
  {
    match e
    case Tick(d) => Some(L.Tick(d))
    case Look(t) => if Found(s).Some? then None else Some(L.Begin(t))
    case Acquire(le) => Some(le)
    case Save(t) => Some(L.Elsewhere(s.key, s.callers[t].v, s.ttl))
    case ReadToken(t) => Some(L.ReadForRelease(t))
    case Unlock(t) => Some(L.Delete(t))
    case _ => None
  }

  function Lock(s: Flight, e: Step): L.System
    requires Enabled(s, e)
  {
    match LockStep(s, e)
    case None => s.lock
    case Some(le) => L.Next(s.lock, le)
  }

  function Goto(s: Flight, t: nat, p: Pc): Flight
    requires t < |s.callers|
  {
    s.(callers := s.callers[t := p])
  }

  function Next(s: Flight, e: Step): Flight
    requires Enabled(s, e)
  {
    var s' := s.(lock := Lock(s, e));
    match e
    case Tick(_) => s'
    case Look(t) => Goto(s', t, if Found(s).Some? then Done(Returned(Found(s).value)) else Locking)
    case Acquire(le) =>
      if s'.lock.tasks[TaskOf(le)].phase.Holding? then Goto(s', TaskOf(le), Checking) else s'
    case Check(t) =>
      if Found(s).Some? then Goto(s', t, Leaving(Returned(Found(s).value)))
      else Goto(s', t, Computing).(started := s.started + 1)
    case Compute(t, v) => Goto(s', t, Saving(v)).(computed := s.computed + [v])
    case Fail(t) => Goto(s', t, Leaving(Failed)).(failed := s.failed + 1)
    case Save(t) => Goto(s', t, Leaving(Returned(s.callers[t].v)))
    case ReadToken(t) =>
      Goto(s', t, if s'.lock.tasks[t].phase.Deleting? then Unlocking(s.callers[t].r) else Done(s.callers[t].r))
    case Unlock(t) => Goto(s', t, Done(s.callers[t].r))
  }

  // ------------------------------------------------------- what a caller does

  /** A caller that finds the value at its first look returns it without taking the lock. */
  lemma {:induction false} CachedValueIsReturned(s: Flight, t: nat)
    requires Enabled(s, Look(t)) && Found(s).Some?
    ensures Next(s, Look(t)) == s.(callers := s.callers[t := Done(Returned(Found(s).value))])
  {
  }

  /** The factory is called exactly by a caller that holds the lock and finds no value at
      its second look; one that finds it goes on to release the lock and return it. */
  lemma {:induction false} FactoryNeedsSecondMiss(s: Flight, e: Step)
    requires Enabled(s, e)
    ensures Next(s, e).started == s.started + 1 <==> e.Check? && Found(s).None?
    ensures Next(s, e).started != s.started ==> s.callers[e.t].Checking? && Next(s, e).callers[e.t].Computing?
    ensures e.Check? && Found(s).Some? ==> Next(s, e).callers[e.t] == Leaving(Returned(Found(s).value))
  {
  }

  /** The computed value is stored under the key for its ttl, and then returned; an
      exception of the factory stores nothing and is passed on. */
  lemma {:induction false} ComputedValueIsStored(s: Flight, t: nat)
    ensures Enabled(s, Save(t)) ==>
              var v, s' := s.callers[t].v, Next(s, Save(t));
              var end := if s.ttl.None? then None else Some(s.lock.now + s.ttl.value);
              && s'.callers == s.callers[t := Leaving(Returned(v))]
              && s'.lock.store == s.lock.store[s.key := Entry(v, end)]
    ensures Enabled(s, Fail(t)) ==>
              Next(s, Fail(t)).callers == s.callers[t := Leaving(Failed)] && Next(s, Fail(t)).lock == s.lock
  {
  }

  /** On its way out a caller gives the lock up: it deletes it if it still finds its own
      token, and leaves it alone otherwise; its outcome stays what it was. */
  lemma {:induction false} LeavingReleasesLock(s: Flight, t: nat)
    ensures Enabled(s, ReadToken(t)) ==>
              var own := Get(s.lock.store, s.lock.tasks[t].key, s.lock.now) == Some(Token(t));
              var s', r := Next(s, ReadToken(t)), s.callers[t].r;
              s'.callers == s.callers[t := if own then Unlocking(r) else Done(r)] && s'.lock.store == s.lock.store
    ensures Enabled(s, Unlock(t)) ==>
              var s' := Next(s, Unlock(t));
              && s'.callers == s.callers[t := Done(s.callers[t].r)]
              && s'.lock.store == s.lock.store - {s.lock.tasks[t].key}
  {
  }

  // ------------------------------------------------------------ what is kept

  /** Callers and lock tasks march in step. */
  ghost predicate Paired(p: Pc, x: L.Task) {
    match p
    case Start => x.phase.Idle?
    case Locking => x.phase.Trying? || x.phase.Reading? || x.phase.Writing? || x.phase.Refused?
    case Checking => x.phase.Holding?
    case Computing => x.phase.Holding?
    case Saving(_) => x.phase.Holding?
    case Leaving(_) => x.phase.Holding?
    case Unlocking(_) => x.phase.Deleting?
    case Done(_) => x.phase.Idle?
  }

  ghost predicate Shape(s: Flight) {
    |s.callers| == |s.lock.tasks| &&
    forall t | 0 <= t < |s.callers| ::
      Paired(s.callers[t], s.lock.tasks[t]) && s.lock.tasks[t].key == LockKey(s.key)
  }

  /** Leases outlive the factory, and a value is not stored to expire at once. */
  ghost predicate Calm(s: Flight) {
    L.WithinLease(s.lock, LockKey(s.key)) && (s.ttl.Some? ==> 0 < s.ttl.value)
  }

  /** A value that is there is neither forgotten nor expired by the step. */
  predicate Keeps(s: Flight, s': Flight) {
    Found(s).Some? ==> Found(s').Some?
  }

  predicate Answer(p: Pc, v: Value) {
    (p.Leaving? || p.Unlocking? || p.Done?) && p.r == Returned(v)
  }

  predicate Busy(p: Pc) {
    p.Computing? || p.Saving?
  }

  /** What one caller knows about the value: it is there and is the one returned,
      or this caller is about to provide it. */
  ghost predicate Consistent(s: Flight, p: Pc) {
    && (forall v | Answer(p, v) :: Found(s) == Some(v))
    && (p.Computing? ==> Found(s).None? && s.computed == [])
    && (p.Saving? ==> Found(s).None? && s.computed == [p.v])
  }

  ghost predicate OneValue(s: Flight) {
    && (Found(s).Some? && s.computed != [] ==> s.computed == [Found(s).value])
    && (Found(s).None? && s.computed != [] ==> exists t | 0 <= t < |s.callers| :: s.callers[t].Saving?)
    && (forall t | 0 <= t < |s.callers| :: Consistent(s, s.callers[t]))
  }

  /** Factory calls are accounted for: returned, raised, or running. */
  ghost predicate Counted(s: Flight) {
    s.started == |s.computed| + s.failed + (if exists t | 0 <= t < |s.callers| :: s.callers[t].Computing? then 1 else 0)
  }

  ghost predicate Good(s: Flight) {
    Shape(s) && L.Sound(s.lock) && L.Honoured(s.lock) && OneValue(s) && Counted(s)
  }

  lemma {:induction false} LockKeyDiffers(k: Key)
    ensures LockKey(k) != k
  {
    assert |LockKey(k)| == |k| + 9;
  }

  // ---------------------------------------------------------- step by step

  lemma {:induction false} LockStaysSound(s: Flight, e: Step)
    requires Enabled(s, e) && Shape(s) && L.Sound(s.lock) && L.Honoured(s.lock)
    requires L.WithinLease(s.lock, LockKey(s.key))
    ensures L.Sound(Lock(s, e)) && L.Honoured(Lock(s, e))
  {
    if LockStep(s, e).Some? {
      var le := LockStep(s, e).value;
      L.StepKeepsMutex(s.lock, le);
      L.StepKeepsWriter(s.lock, le);
      L.StepKeepsLeased(s.lock, le);
      if le.Delete? {
        assert s.lock.tasks[le.t].key == LockKey(s.key);
        assert L.Owns(s.lock, le.t) && L.HonouredOn(s.lock, LockKey(s.key));
      }
      L.StepHonouredIff(s.lock, le);
    }
  }

  /** A caller that is past the lock and not yet out of it is the only one. */
  lemma {:induction false} OnlyInside(s: Flight, t: nat)
    requires Shape(s) && L.Honoured(s.lock) && L.WithinLease(s.lock, LockKey(s.key))
    requires t < |s.callers| && L.Claims(s.lock.tasks[t])
    ensures forall u | 0 <= u < |s.callers| && u != t :: !L.Claims(s.lock.tasks[u])
  {
    assert L.HonouredOn(s.lock, LockKey(s.key));
    L.HonouredMeansExclusive(s.lock, LockKey(s.key));
    assert L.Owns(s.lock, t);
    assert forall u: nat | u < |s.callers| && L.Claims(s.lock.tasks[u]) :: L.Owns(s.lock, u);
  }

  lemma {:induction false} GotoKeepsShape(s: Flight, lock: L.System, t: nat, p: Pc)
    requires Shape(s) && t < |s.callers| && |lock.tasks| == |s.lock.tasks|
    requires forall u | 0 <= u < |s.callers| && u != t :: lock.tasks[u] == s.lock.tasks[u]
    requires lock.tasks[t].key == s.lock.tasks[t].key && Paired(p, lock.tasks[t])
    ensures Shape(Goto(s.(lock := lock), t, p))
  {
  }

  lemma {:induction false} FactoryKeepsShape(s: Flight, e: Step)
    requires Enabled(s, e) && Shape(s) && (e.Check? || e.Compute? || e.Fail? || e.Save?)
    ensures Shape(Next(s, e))
  {
    GotoKeepsShape(s, Lock(s, e), e.t, Next(s, e).callers[e.t]);
  }

  lemma {:induction false} LockingKeepsShape(s: Flight, e: Step)
    requires Enabled(s, e) && Shape(s) && !(e.Check? || e.Compute? || e.Fail? || e.Save?)
    ensures Shape(Next(s, e))
  {
    var lock := Lock(s, e);
    match e
    case Tick(_) =>
    case Acquire(le) => GotoKeepsShape(s, lock, TaskOf(le), Next(s, e).callers[TaskOf(le)]);
    case Look(t) => GotoKeepsShape(s, lock, t, Next(s, e).callers[t]);
    case ReadToken(t) => GotoKeepsShape(s, lock, t, Next(s, e).callers[t]);
    case Unlock(t) => GotoKeepsShape(s, lock, t, Next(s, e).callers[t]);
  }

  lemma {:induction false} ShapeStays(s: Flight, e: Step)
    requires Enabled(s, e) && Shape(s)
    ensures Shape(Next(s, e))
  {
    if e.Check? || e.Compute? || e.Fail? || e.Save? {
      FactoryKeepsShape(s, e);
    } else {
      LockingKeepsShape(s, e);
    }
  }

  lemma {:induction false} LockLeavesOtherKeys(s: L.System, e: L.Step, k: Key)
    requires L.Enabled(s, e) && (forall t | 0 <= t < |s.tasks| :: s.tasks[t].key != k) && !e.Elsewhere?
    ensures k in L.Next(s, e).store <==> k in s.store
    ensures k in s.store ==> L.Next(s, e).store[k] == s.store[k]
  {
  }

  /** Only storing the value, or its expiry, changes what a look finds. */
  lemma {:induction false} FoundStays(s: Flight, e: Step)
    requires Enabled(s, e) && Shape(s) && !e.Save? && Keeps(s, Next(s, e))
    ensures Found(Next(s, e)) == Found(s)
  {
    LockKeyDiffers(s.key);
    if LockStep(s, e).Some? {
      LockLeavesOtherKeys(s.lock, LockStep(s, e).value, s.key);
    }
    assert Next(s, e).lock == Lock(s, e) && Next(s, e).key == s.key;
  }

  lemma {:induction false} SaveIsFound(s: Flight, t: nat)
    requires Enabled(s, Save(t)) && Calm(s)
    ensures Found(Next(s, Save(t))) == Some(s.callers[t].v)
  {
  }

  lemma {:induction false} SaveKeepsOneValue(s: Flight, t: nat)
    requires Enabled(s, Save(t)) && Good(s) && Calm(s)
    ensures OneValue(Next(s, Save(t)))
  {
    SaveIsFound(s, t);
    var s' := Next(s, Save(t));
    assert Consistent(s, s.callers[t]);
    OnlyInside(s, t);
    forall u | 0 <= u < |s'.callers| ensures Consistent(s', s'.callers[u]) {
      assert Consistent(s, s.callers[u]);
    }
  }

  lemma {:induction false} CheckKeepsOneValue(s: Flight, t: nat)
    requires Enabled(s, Check(t)) && Good(s) && Calm(s) && Found(Next(s, Check(t))) == Found(s)
    ensures OneValue(Next(s, Check(t)))
  {
    var s' := Next(s, Check(t));
    OnlyInside(s, t);
    forall u | 0 <= u < |s'.callers| ensures Consistent(s', s'.callers[u]) {
      assert Consistent(s, s.callers[u]);
    }
  }

  lemma {:induction false} ComputeKeepsOneValue(s: Flight, t: nat, v: Value)
    requires Enabled(s, Compute(t, v)) && Good(s) && Calm(s) && Found(Next(s, Compute(t, v))) == Found(s)
    ensures OneValue(Next(s, Compute(t, v)))
  {
    var s' := Next(s, Compute(t, v));
    assert Consistent(s, s.callers[t]);
    assert s'.callers[t].Saving?;
    OnlyInside(s, t);
    forall u | 0 <= u < |s'.callers| ensures Consistent(s', s'.callers[u]) {
      assert Consistent(s, s.callers[u]);
    }
  }

  /** A step that neither computes nor stores, and leaves every answer alone. */
  lemma {:induction false} OthersKeepOneValue(s: Flight, e: Step)
    requires Enabled(s, e) && Good(s) && !e.Save? && !e.Check? && !e.Compute? && Found(Next(s, e)) == Found(s)
    ensures OneValue(Next(s, e))
  {
    var s' := Next(s, e);
    assert s'.computed == s.computed;
    forall u | 0 <= u < |s'.callers| ensures Consistent(s', s'.callers[u]) {
      assert Consistent(s, s.callers[u]);
    }
    if t :| 0 <= t < |s.callers| && s.callers[t].Saving? {
      assert s'.callers[t].Saving?;
    }
  }

  lemma {:induction false} OneValueStays(s: Flight, e: Step)
    requires Enabled(s, e) && Good(s) && Calm(s) && Keeps(s, Next(s, e))
    ensures OneValue(Next(s, e))
  {
    match e
    case Save(t) => SaveKeepsOneValue(s, t);
    case Check(t) => FoundStays(s, e); CheckKeepsOneValue(s, t);
    case Compute(t, v) => FoundStays(s, e); ComputeKeepsOneValue(s, t, v);
    case _ => FoundStays(s, e); OthersKeepOneValue(s, e);
  }

  lemma {:induction false} OthersKeepCount(s: Flight, e: Step)
    requires Enabled(s, e) && Good(s) && !e.Check? && !e.Compute? && !e.Fail?
    ensures Counted(Next(s, e))
  {
    assert forall u | 0 <= u < |s.callers| :: Next(s, e).callers[u].Computing? == s.callers[u].Computing?;
  }

  lemma {:induction false} CheckKeepsCount(s: Flight, t: nat)
    requires Enabled(s, Check(t)) && Good(s) && Calm(s)
    ensures Counted(Next(s, Check(t)))
  {
    var s' := Next(s, Check(t));
    OnlyInside(s, t);
    assert forall u | 0 <= u < |s.callers| :: !s.callers[u].Computing?;
    if Found(s).None? {
      assert s'.callers[t].Computing?;
    } else {
      assert forall u | 0 <= u < |s.callers| :: !s'.callers[u].Computing?;
    }
  }

  /** The factory call of caller `t` ends, and no other one is running. */
  lemma {:induction false} EndKeepsCount(s: Flight, e: Step, t: nat)
    requires Enabled(s, e) && Good(s) && Calm(s) && At(s, t, Computing)
    requires e == Fail(t) || (e.Compute? && e.t == t)
    ensures Counted(Next(s, e))
  {
    OnlyInside(s, t);
    assert s.callers[t].Computing?;
    assert forall u | 0 <= u < |s.callers| :: !Next(s, e).callers[u].Computing?;
  }

  lemma {:induction false} CountStays(s: Flight, e: Step)
    requires Enabled(s, e) && Good(s) && Calm(s)
    ensures Counted(Next(s, e))
  {
    match e
    case Check(t) => CheckKeepsCount(s, t);
    case Compute(t, _) => EndKeepsCount(s, e, t);
    case Fail(t) => EndKeepsCount(s, e, t);
    case _ => OthersKeepCount(s, e);
  }

  lemma {:induction false} StepKeepsGood(s: Flight, e: Step)
    requires Enabled(s, e) && Good(s) && Calm(s) && Keeps(s, Next(s, e))
    ensures Good(Next(s, e))
  {
    LockStaysSound(s, e);
    ShapeStays(s, e);
    OneValueStays(s, e);
    CountStays(s, e);
    assert Next(s, e).lock == Lock(s, e);
  }

  // ----------------------------------------------------------------- runs

  ghost predicate Leads(s: Flight, e: Step, s': Flight) {
    Enabled(s, e) && s' == Next(s, e)
  }

  ghost predicate Initial(s: Flight) {
    && |s.callers| == |s.lock.tasks| && L.Initial(s.lock)
    && (forall t | 0 <= t < |s.callers| :: s.callers[t].Start? && s.lock.tasks[t].key == LockKey(s.key))
    && s.started == 0 && s.failed == 0 && s.computed == []
  }

  ghost predicate IsRun(ss: seq<Flight>, es: seq<Step>) {
    |ss| == |es| + 1 && Initial(ss[0]) &&
    forall k, n | 0 <= k < |es| && n == k + 1 :: Leads(ss[k], es[k], ss[n])
  }

  /** Up to state `i` leases outlive the factory, and the value, once it is there, stays. */
  ghost predicate Undropped(ss: seq<Flight>, i: nat)
    requires i < |ss|
  {
    && (forall k | 0 <= k < i :: Calm(ss[k]))
    && (forall k, n {:trigger Keeps(ss[k], ss[n])} | 0 <= k < i && n == k + 1 :: Keeps(ss[k], ss[n]))
  }

  lemma {:induction false} RunStaysGood(ss: seq<Flight>, es: seq<Step>, i: nat)
    requires IsRun(ss, es) && i <= |es| && Undropped(ss, i)
    ensures Good(ss[i])
    decreases i
  {
    if i > 0 {
      RunStaysGood(ss, es, i - 1);
      assert Leads(ss[i - 1], es[i - 1], ss[i]) && Keeps(ss[i - 1], ss[i]);
      StepKeepsGood(ss[i - 1], es[i - 1]);
    }
  }

  lemma {:induction false} NothingToCompute(s: Flight)
    requires Good(s) && Found(s).Some?
    ensures forall t | 0 <= t < |s.callers| :: !Busy(s.callers[t])
  {
    forall t | 0 <= t < |s.callers| ensures !Busy(s.callers[t]) {
      assert Consistent(s, s.callers[t]);
    }
  }

  /** A value that is there from the start is never computed again. */
  lemma {:induction false} CachedStaysCached(ss: seq<Flight>, es: seq<Step>, i: nat)
    requires IsRun(ss, es) && i <= |es| && Undropped(ss, i) && Found(ss[0]).Some?
    ensures Found(ss[i]) == Found(ss[0]) && ss[i].computed == [] && ss[i].started == 0
    decreases i
  {
    if i > 0 {
      CachedStaysCached(ss, es, i - 1);
      RunStaysGood(ss, es, i - 1);
      assert Leads(ss[i - 1], es[i - 1], ss[i]) && Keeps(ss[i - 1], ss[i]);
      NothingToCompute(ss[i - 1]);
      FoundStays(ss[i - 1], es[i - 1]);
    }
  }

  /** A value that is found was there at the start or was computed. */
  lemma {:induction false} ValueHasSource(ss: seq<Flight>, es: seq<Step>, i: nat)
    requires IsRun(ss, es) && i <= |es| && Undropped(ss, i) && Found(ss[i]).Some?
    ensures Found(ss[0]) == Found(ss[i]) || ss[i].computed == [Found(ss[i]).value]
    decreases i
  {
    if i > 0 {
      RunStaysGood(ss, es, i - 1);
      RunStaysGood(ss, es, i);
      var s, e := ss[i - 1], es[i - 1];
      assert Leads(s, e, ss[i]) && Keeps(s, ss[i]);
      if e.Save? {
        SaveIsFound(s, e.t);
        assert Consistent(s, s.callers[e.t]);
      } else {
        FoundStays(s, e);
        ValueHasSource(ss, es, i - 1);
      }
    }
  }

  /** Single flight: at most one factory call returns a value, and if none raises at
      most one is made at all; every caller that gets a value gets the stored one. */
  lemma {:induction false} FactoryRunsOnce(ss: seq<Flight>, es: seq<Step>, i: nat)
    requires IsRun(ss, es) && i <= |es| && Undropped(ss, i)
    ensures |ss[i].computed| <= 1 && ss[i].started <= ss[i].failed + 1
    ensures Found(ss[0]).Some? ==> ss[i].started == 0
    ensures forall t, v | 0 <= t < |ss[i].callers| && ss[i].callers[t] == Done(Returned(v)) ::
              Found(ss[i]) == Some(v) && (Found(ss[0]) == Some(v) || ss[i].computed == [v])
  {
    RunStaysGood(ss, es, i);
    if Found(ss[0]).Some? {
      CachedStaysCached(ss, es, i);
    }
    var s := ss[i];
    if s.computed != [] && Found(s).None? {
      var t :| 0 <= t < |s.callers| && s.callers[t].Saving?;
      assert Consistent(s, s.callers[t]);
    }
    if t :| 0 <= t < |s.callers| && s.callers[t].Computing? {
      assert Consistent(s, s.callers[t]);
    }
    forall t, v | 0 <= t < |s.callers| && s.callers[t] == Done(Returned(v))
      ensures Found(s) == Some(v) && (Found(ss[0]) == Some(v) || s.computed == [v])
    {
      assert Consistent(s, s.callers[t]) && Answer(s.callers[t], v);
      ValueHasSource(ss, es, i);
    }
  }
}
