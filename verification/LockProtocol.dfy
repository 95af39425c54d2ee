/**
 The lock as a protocol: any number of tasks, each driving its own lock instance
 on a key of its choice, one store access per step, and a clock that may advance
 between any two steps. `acquire` either uses the store's native set-if-absent,
 or reads and writes under the facade's mutex; `release` reads the stored token
 and deletes the key in two separate steps.
 */
module LockProtocol {
  import opened Options
  import opened CacheStore

  /** Where a task is: the step it takes next. */
  datatype Phase =
    | Idle       // not using the lock
    | Trying     // about to call add
    | Reading    // in add: holds the mutex, about to read
    | Writing    // in add: holds the mutex and saw no value, about to write
    | Refused    // add found a value
    | Holding    // the lock is claimed; the body runs
    | Deleting   // in release: read its own token, about to delete

  datatype Task = Task(key: Key, ttl: int, phase: Phase, lease: int)

  /** A task's index is its owner token. */
  datatype System = System(native: bool, store: Store, now: int, mutex: Option<nat>, tasks: seq<Task>)

  datatype Step =
    | Tick(d: nat)
    | Begin(t: nat)        // call acquire
    | AddNatively(t: nat)
    | TakeMutex(t: nat)
    | ReadForAdd(t: nat)
    | WriteForAdd(t: nat)
    | Retry(t: nat)        // blocking: sleep and try again
    | GiveUp(t: nat)       // not blocking, or timed out
    | ReadForRelease(t: nat)
    | Delete(t: nat)
    | Elsewhere(k: Key, v: Value, ttl: Option<int>)   // a write under a key that is no lock

  predicate Enabled(s: System, e: Step) {
    match e
    case Tick(_) => true
    case Begin(t) => t < |s.tasks| && s.tasks[t].phase.Idle?
    case AddNatively(t) => s.native && t < |s.tasks| && s.tasks[t].phase.Trying?
    case TakeMutex(t) => !s.native && t < |s.tasks| && s.tasks[t].phase.Trying? && s.mutex.None?
    case ReadForAdd(t) => t < |s.tasks| && s.tasks[t].phase.Reading?
    case WriteForAdd(t) => t < |s.tasks| && s.tasks[t].phase.Writing?
    case Retry(t) => t < |s.tasks| && s.tasks[t].phase.Refused?
    case GiveUp(t) => t < |s.tasks| && s.tasks[t].phase.Refused?
    case ReadForRelease(t) => t < |s.tasks| && s.tasks[t].phase.Holding?
    case Delete(t) => t < |s.tasks| && s.tasks[t].phase.Deleting?
    case Elsewhere(k, _, _) => forall t | 0 <= t < |s.tasks| :: s.tasks[t].key != k
  }

  function Goto(s: System, t: nat, p: Phase): System
    requires t < |s.tasks|
  {
    s.(tasks := s.tasks[t := s.tasks[t].(phase := p)])
  }

  /** Task `t` has written its token: the lease runs from now. */
  function Claim(s: System, t: nat, st: Store): System
    requires t < |s.tasks|
  {
    var task := s.tasks[t];
    s.(store := st, tasks := s.tasks[t := task.(phase := Holding, lease := s.now + task.ttl)])
  }

  function Next(s: System, e: Step): System
    requires Enabled(s, e)
  {
    match e
    case Tick(d) => s.(now := s.now + d)
    case Begin(t) => Goto(s, t, Trying)
    case AddNatively(t) =>
      var (added, st) := Add(s.store, s.tasks[t].key, Token(t), Some(s.tasks[t].ttl), s.now);
      if added then Claim(s, t, st) else Goto(s, t, Refused)
    case TakeMutex(t) => Goto(s, t, Reading).(mutex := Some(t))
    case ReadForAdd(t) =>
      if Get(s.store, s.tasks[t].key, s.now).Some? then Goto(s, t, Refused).(mutex := None)
      else Goto(s, t, Writing)
    case WriteForAdd(t) =>
      Claim(s, t, Put(s.store, s.tasks[t].key, Token(t), Some(s.tasks[t].ttl), s.now)).(mutex := None)
    case Retry(t) => Goto(s, t, Trying)
    case GiveUp(t) => Goto(s, t, Idle)
    case ReadForRelease(t) =>
      Goto(s, t, if Get(s.store, s.tasks[t].key, s.now) == Some(Token(t)) then Deleting else Idle)
    case Delete(t) => Goto(s.(store := Forget(s.store, s.tasks[t].key)), t, Idle)
    case Elsewhere(k, v, ttl) => s.(store := Put(s.store, k, v, ttl, s.now))
  }

  /** Under the mutex, a read and a write with no step in between come to the same as
      one native set-if-absent. */
  lemma {:induction false} FallbackAddIsAdd(s: System, t: nat)
    requires Enabled(s, TakeMutex(t))
    ensures var read := Next(Next(s, TakeMutex(t)), ReadForAdd(t));
            var end := if Enabled(read, WriteForAdd(t)) then Next(read, WriteForAdd(t)) else read;
            end.(native := true) == Next(s.(native := true), AddNatively(t))
  {
    var s1 := Next(s, TakeMutex(t));
    var read := Next(s1, ReadForAdd(t));
    var end := if Enabled(read, WriteForAdd(t)) then Next(read, WriteForAdd(t)) else read;
    assert end.tasks == Next(s.(native := true), AddNatively(t)).tasks;
  }

  // ------------------------------------------------------------ what a step does

  predicate Claimed(s: System, t: nat, s': System)
    requires t < |s.tasks|
  {
    var x := s.tasks[t];
    && s' == s.(store := s'.store, tasks := s.tasks[t := Task(x.key, x.ttl, Holding, s.now + x.ttl)])
    && s'.store == s.store[x.key := Entry(Token(t), Some(s.now + x.ttl))]
  }

  /** A try to claim succeeds exactly if nothing is found under the key, natively in one
      step and under the mutex in two. A claim stores the task's token for its ttl, which
      is also its lease; a failed try stores nothing. */
  lemma {:induction false} ClaimSucceedsIff(s: System, t: nat)
    ensures Enabled(s, AddNatively(t)) ==>
              var free, s' := Get(s.store, s.tasks[t].key, s.now) == None, Next(s, AddNatively(t));
              if free then Claimed(s, t, s') else s' == s.(tasks := s.tasks[t := s.tasks[t].(phase := Refused)])
    ensures Enabled(s, ReadForAdd(t)) ==>
              var free, s' := Get(s.store, s.tasks[t].key, s.now) == None, Next(s, ReadForAdd(t));
              s'.tasks[t].phase == (if free then Writing else Refused) && s'.store == s.store
    ensures Enabled(s, WriteForAdd(t)) ==> Claimed(s, t, Next(s, WriteForAdd(t)).(mutex := s.mutex))
  {
  }

  /** A release deletes only after it has read its own token: when the lease is over, or
      somebody else's token is found, it changes nothing in the store. A delete removes
      the key and nothing else. */
  lemma {:induction false} ReleaseNeedsOwnToken(s: System, t: nat)
    ensures Enabled(s, ReadForRelease(t)) ==>
              var own := Get(s.store, s.tasks[t].key, s.now) == Some(Token(t));
              Next(s, ReadForRelease(t)) ==
              s.(tasks := s.tasks[t := s.tasks[t].(phase := if own then Deleting else Idle)])
    ensures Enabled(s, Delete(t)) ==>
              var s' := Next(s, Delete(t));
              && s'.tasks == s.tasks[t := s.tasks[t].(phase := Idle)] && s'.now == s.now
              && s'.store == s.store - {s.tasks[t].key}
  {
  }

  /** A refused task tries again or gives up, and a task that starts to acquire tries; none
      of this touches the store, the mutex or another task. */
  lemma {:induction false} RefusedRetriesOrGivesUp(s: System, t: nat)
    ensures Enabled(s, Begin(t)) ==> Next(s, Begin(t)) == s.(tasks := s.tasks[t := s.tasks[t].(phase := Trying)])
    ensures Enabled(s, Retry(t)) ==> Next(s, Retry(t)) == s.(tasks := s.tasks[t := s.tasks[t].(phase := Trying)])
    ensures Enabled(s, GiveUp(t)) ==> Next(s, GiveUp(t)) == s.(tasks := s.tasks[t := s.tasks[t].(phase := Idle)])
    ensures Enabled(s, Retry(t)) <==> Enabled(s, GiveUp(t))
  {
  }

  // ------------------------------------------------------------ what is kept

  /** This one has claimed its key and has not let go of it. */
  predicate Claims(x: Task) {
    x.phase.Holding? || x.phase.Deleting?
  }

  /** Task `t` holds an unexpired lease. */
  predicate Owns(s: System, t: nat) {
    t < |s.tasks| && Claims(s.tasks[t]) && s.now < s.tasks[t].lease
  }

  /** Every unexpired lease on the key is the stored one: the entry is the holder's token. */
  ghost predicate HonouredOn(s: System, k: Key) {
    forall t: nat | Owns(s, t) && s.tasks[t].key == k ::
      k in s.store && s.store[k] == Entry(Token(t), Some(s.tasks[t].lease))
  }

  ghost predicate Honoured(s: System) {
    forall k :: HonouredOn(s, k)
  }

  ghost predicate ExclusiveOn(s: System, k: Key) {
    forall t: nat, u: nat | Owns(s, t) && Owns(s, u) && s.tasks[t].key == k && s.tasks[u].key == k :: t == u
  }

  ghost predicate Exclusive(s: System) {
    forall k :: ExclusiveOn(s, k)
  }

  ghost predicate LeasedTo(s: System, k: Key)
    requires k in s.store
  {
    var e := s.store[k];
    && e.value.Token? && e.value.owner < |s.tasks| && e.expires.Some?
    && s.tasks[e.value.owner].key == k && Claims(s.tasks[e.value.owner])
    && s.tasks[e.value.owner].lease == e.expires.value
  }

  /** A live entry under a lock key is the lease of some task. */
  ghost predicate Leased(s: System) {
    forall t | 0 <= t < |s.tasks| && Live(s.store, s.tasks[t].key, s.now) :: LeasedTo(s, s.tasks[t].key)
  }

  ghost predicate MutexHeld(s: System) {
    forall t | 0 <= t < |s.tasks| ::
      (s.tasks[t].phase.Reading? || s.tasks[t].phase.Writing? <==> s.mutex == Some(t)) &&
      (s.mutex == Some(t) ==> !s.native)
  }

  /** Between the read and the write of add, nobody else's value appears. */
  ghost predicate WriterSawNothing(s: System) {
    forall t | 0 <= t < |s.tasks| && s.tasks[t].phase.Writing? :: !Live(s.store, s.tasks[t].key, s.now)
  }

  ghost predicate Sound(s: System) {
    MutexHeld(s) && WriterSawNothing(s) && Leased(s)
  }

  ghost predicate Initial(s: System) {
    && s.mutex.None?
    && (forall t | 0 <= t < |s.tasks| :: s.tasks[t].phase.Idle? && !Live(s.store, s.tasks[t].key, s.now))
  }

  /** The one step that can go wrong: the key that is deleted holds, by now, a live
      entry of somebody else. */
  predicate StaleDelete(s: System, e: Step) {
    e.Delete? && e.t < |s.tasks| && Live(s.store, s.tasks[e.t].key, s.now) &&
    s.store[s.tasks[e.t].key].value != Token(e.t)
  }

  // ---------------------------------------------------------- step by step

  lemma {:induction false} HonouredMeansExclusive(s: System, k: Key)
    requires HonouredOn(s, k)
    ensures ExclusiveOn(s, k)
  {
  }

  lemma {:induction false} StepKeepsMutex(s: System, e: Step)
    requires Enabled(s, e) && MutexHeld(s)
    ensures MutexHeld(Next(s, e))
  {
  }

  lemma {:induction false} StepKeepsWriter(s: System, e: Step)
    requires Enabled(s, e) && MutexHeld(s) && WriterSawNothing(s)
    ensures WriterSawNothing(Next(s, e))
  {
  }

  lemma {:induction false} GotoKeepsLeased(s: System, t: nat, p: Phase)
    requires t < |s.tasks| && Leased(s)
    requires Claims(s.tasks[t]) ==> p.Holding? || p.Deleting? || !Live(s.store, s.tasks[t].key, s.now) ||
                                    s.store[s.tasks[t].key].value != Token(t)
    ensures Leased(Goto(s, t, p))
  {
  }

  lemma {:induction false} ClaimKeepsLeased(s: System, t: nat)
    requires t < |s.tasks| && Leased(s) && !Live(s.store, s.tasks[t].key, s.now)
    ensures Leased(Claim(s, t, Put(s.store, s.tasks[t].key, Token(t), Some(s.tasks[t].ttl), s.now)))
  {
  }

  lemma {:induction false} ForgetKeepsLeased(s: System, k: Key)
    requires Leased(s)
    ensures Leased(s.(store := Forget(s.store, k)))
  {
  }

  lemma {:induction false} StepKeepsLeased(s: System, e: Step)
    requires Enabled(s, e) && Leased(s) && WriterSawNothing(s)
    ensures Leased(Next(s, e))
  {
    match e
    case Tick(_) =>
    case Elsewhere(_, _, _) =>
    case AddNatively(t) =>
      if Live(s.store, s.tasks[t].key, s.now) {
        GotoKeepsLeased(s, t, Refused);
      } else {
        ClaimKeepsLeased(s, t);
      }
    case WriteForAdd(t) => ClaimKeepsLeased(s, t);
    case Begin(t) => GotoKeepsLeased(s, t, Trying);
    case TakeMutex(t) => GotoKeepsLeased(s, t, Reading);
    case ReadForAdd(t) => GotoKeepsLeased(s, t, Next(s, e).tasks[t].phase);
    case Retry(t) => GotoKeepsLeased(s, t, Trying);
    case GiveUp(t) => GotoKeepsLeased(s, t, Idle);
    case ReadForRelease(t) => GotoKeepsLeased(s, t, Next(s, e).tasks[t].phase);
    case Delete(t) =>
      var s' := s.(store := Forget(s.store, s.tasks[t].key));
      ForgetKeepsLeased(s, s.tasks[t].key);
      GotoKeepsLeased(s', t, Idle);
  }

  /** On a key whose leases are honoured, a step leaves them so exactly when it is no
      stale delete of that key. */
  lemma {:induction false} StepHonoursKeyIff(s: System, e: Step, k: Key)
    requires Enabled(s, e) && Sound(s) && HonouredOn(s, k)
    ensures HonouredOn(Next(s, e), k) <==> !(StaleDelete(s, e) && s.tasks[e.t].key == k)
  {
    if StaleDelete(s, e) && s.tasks[e.t].key == k {
      assert Owns(Next(s, e), s.store[k].value.owner);
    }
  }

  /** From an honoured state, a step leads to one exactly when it is no stale delete. */
  lemma {:induction false} StepHonouredIff(s: System, e: Step)
    requires Enabled(s, e) && Sound(s) && Honoured(s)
    ensures Honoured(Next(s, e)) <==> !StaleDelete(s, e)
  {
    forall k ensures HonouredOn(Next(s, e), k) <==> !(StaleDelete(s, e) && s.tasks[e.t].key == k) {
      assert HonouredOn(s, k);
      StepHonoursKeyIff(s, e, k);
    }
    if StaleDelete(s, e) {
      assert !HonouredOn(Next(s, e), s.tasks[e.t].key);
    }
  }

  // ----------------------------------------------------------------- runs

  predicate Leads(s: System, e: Step, s': System) {
    Enabled(s, e) && s' == Next(s, e)
  }

  ghost predicate IsRun(ss: seq<System>, es: seq<Step>) {
    |ss| == |es| + 1 && Initial(ss[0]) &&
    forall k, n | 0 <= k < |es| && n == k + 1 :: Leads(ss[k], es[k], ss[n])
  }

  lemma {:induction false} RunStep(ss: seq<System>, es: seq<Step>, k: nat)
    requires IsRun(ss, es) && k < |es|
    ensures Enabled(ss[k], es[k]) && ss[k + 1] == Next(ss[k], es[k])
  {
    assert Leads(ss[k], es[k], ss[k + 1]);
  }

  lemma {:induction false} Extend(ss: seq<System>, es: seq<Step>, s: System, e: Step, s': System)
    returns (ss': seq<System>, es': seq<Step>)
    requires IsRun(ss, es) && ss[|es|] == s && Leads(s, e, s')
    ensures IsRun(ss', es') && ss'[|es'|] == s'
  {
    ss', es' := ss + [s'], es + [e];
    forall k, n | 0 <= k < |es'| && n == k + 1 ensures Leads(ss'[k], es'[k], ss'[n]) {
      if n <= |es| {
        assert Leads(ss[k], es[k], ss[n]);
      }
    }
  }

  lemma {:induction false} RunIsSound(ss: seq<System>, es: seq<Step>, i: nat)
    requires IsRun(ss, es) && i <= |es|
    ensures Sound(ss[i])
  {
    if i > 0 {
      RunIsSound(ss, es, i - 1);
      RunStep(ss, es, i - 1);
      StepKeepsMutex(ss[i - 1], es[i - 1]);
      StepKeepsWriter(ss[i - 1], es[i - 1]);
      StepKeepsLeased(ss[i - 1], es[i - 1]);
    }
  }

  lemma {:induction false} HonouredUntilStale(ss: seq<System>, es: seq<Step>, i: nat)
    requires IsRun(ss, es) && i <= |es|
    requires forall k | 0 <= k < i :: !StaleDelete(ss[k], es[k])
    ensures Honoured(ss[i])
  {
    if i > 0 {
      HonouredUntilStale(ss, es, i - 1);
      RunIsSound(ss, es, i - 1);
      RunStep(ss, es, i - 1);
      StepHonouredIff(ss[i - 1], es[i - 1]);
    }
  }

  /** Over every interleaving: all unexpired leases are honoured, and so each key
      has at most one holder, exactly when no stale delete happens. */
  lemma {:induction false} HonouredIffNoStaleDelete(ss: seq<System>, es: seq<Step>)
    requires IsRun(ss, es)
    ensures (forall i | 0 <= i <= |es| :: Honoured(ss[i])) <==>
            (forall i | 0 <= i < |es| :: !StaleDelete(ss[i], es[i]))
    ensures (forall i | 0 <= i < |es| :: !StaleDelete(ss[i], es[i])) ==>
            (forall i | 0 <= i <= |es| :: Exclusive(ss[i]))
  {
    if forall i | 0 <= i < |es| :: !StaleDelete(ss[i], es[i]) {
      forall i | 0 <= i <= |es| ensures Honoured(ss[i]) && Exclusive(ss[i]) {
        HonouredUntilStale(ss, es, i);
        forall k ensures ExclusiveOn(ss[i], k) {
          assert HonouredOn(ss[i], k);
          HonouredMeansExclusive(ss[i], k);
        }
      }
    } else {
      var i :| 0 <= i < |es| && StaleDelete(ss[i], es[i]);
      if Honoured(ss[i]) && Honoured(ss[i + 1]) {
        RunIsSound(ss, es, i);
        RunStep(ss, es, i);
        StepHonouredIff(ss[i], es[i]);
        assert false;
      }
    }
  }

  /** Up to state `i`, no lease on the key runs out between the read and the delete of a
      release. */
  ghost predicate PromptReleases(ss: seq<System>, es: seq<Step>, k: Key, i: nat)
    requires i <= |es| && |ss| == |es| + 1
  {
    forall n | 0 <= n < i && es[n].Delete? && es[n].t < |ss[n].tasks| && ss[n].tasks[es[n].t].key == k ::
      ss[n].now < ss[n].tasks[es[n].t].lease
  }

  /** With prompt releases of a key, at most one task holds an unexpired lease on it, and
      the stored token is that holder's; what happens to other keys does not matter. */
  lemma {:induction false} PromptRunsAreExclusive(ss: seq<System>, es: seq<Step>, k: Key, i: nat)
    requires IsRun(ss, es) && i <= |es| && PromptReleases(ss, es, k, i)
    ensures HonouredOn(ss[i], k) && ExclusiveOn(ss[i], k)
  {
    if i > 0 {
      PromptRunsAreExclusive(ss, es, k, i - 1);
      var s, e := ss[i - 1], es[i - 1];
      RunStep(ss, es, i - 1);
      if e.Delete? && s.tasks[e.t].key == k {
        assert Owns(s, e.t);
      }
      RunIsSound(ss, es, i - 1);
      StepHonoursKeyIff(s, e, k);
    }
    HonouredMeansExclusive(ss[i], k);
  }

  // ------------------------------------------------- overlap-protected bodies

  /** Bodies under the key end, and releases of it finish, within the lease. */
  ghost predicate WithinLease(s: System, k: Key) {
    forall t | 0 <= t < |s.tasks| && Claims(s.tasks[t]) && s.tasks[t].key == k :: s.now < s.tasks[t].lease
  }

  /** Two bodies protected by one key never run at once, as long as the bodies under
      that key have stayed within their leases. */
  lemma {:induction false} BodiesNeverOverlap(ss: seq<System>, es: seq<Step>, k: Key, i: nat, t: nat, u: nat)
    requires IsRun(ss, es) && i <= |es| && (forall n | 0 <= n <= i :: WithinLease(ss[n], k))
    requires t < |ss[i].tasks| && ss[i].tasks[t].key == k && ss[i].tasks[t].phase.Holding?
    requires u < |ss[i].tasks| && ss[i].tasks[u].key == k && ss[i].tasks[u].phase.Holding?
    ensures t == u
  {
    forall n | 0 <= n < i && es[n].Delete? && es[n].t < |ss[n].tasks| && ss[n].tasks[es[n].t].key == k
      ensures ss[n].now < ss[n].tasks[es[n].t].lease
    {
      RunStep(ss, es, n);
      assert WithinLease(ss[n], k);
    }
    PromptRunsAreExclusive(ss, es, k, i);
    assert WithinLease(ss[i], k);
    assert Owns(ss[i], t) && Owns(ss[i], u);
  }

  // ------------------------------------------------------- why the condition

  function Demo(st: Store, now: int, a: Task, b: Task, c: Task): System {
    System(true, st, now, None, [a, b, c])
  }

  function DemoTask(p: Phase, lease: int): Task {
    Task("k", 10, p, lease)
  }

  function DemoLease(owner: nat, lease: int): Store {
    map["k" := Entry(Token(owner), Some(lease))]
  }

  /** Task 0 reads its token; its lease ends; task 1 claims the key. */
  lemma {:induction false} LateReader(s: System) returns (ss: seq<System>, es: seq<Step>)
    requires s == Demo(map[], 0, DemoTask(Idle, 0), DemoTask(Idle, 0), DemoTask(Idle, 0))
    ensures IsRun(ss, es)
    ensures ss[|es|] ==
              Demo(DemoLease(1, 20), 10, DemoTask(Deleting, 10), DemoTask(Holding, 20), DemoTask(Idle, 0))
  {
    var idle, trying := DemoTask(Idle, 0), DemoTask(Trying, 0);
    var s1 := Demo(map[], 0, trying, idle, idle);
    var s2 := Demo(DemoLease(0, 10), 0, DemoTask(Holding, 10), idle, idle);
    var s3 := Demo(DemoLease(0, 10), 0, DemoTask(Deleting, 10), idle, idle);
    var s4 := Demo(DemoLease(0, 10), 10, DemoTask(Deleting, 10), idle, idle);
    var s5 := Demo(DemoLease(0, 10), 10, DemoTask(Deleting, 10), trying, idle);
    var s6 := Demo(DemoLease(1, 20), 10, DemoTask(Deleting, 10), DemoTask(Holding, 20), idle);
    ss, es := [s], [];
    ss, es := Extend(ss, es, s, Begin(0), s1);
    ss, es := Extend(ss, es, s1, AddNatively(0), s2);
    ss, es := Extend(ss, es, s2, ReadForRelease(0), s3);
    ss, es := Extend(ss, es, s3, Tick(10), s4);
    ss, es := Extend(ss, es, s4, Begin(1), s5);
    ss, es := Extend(ss, es, s5, AddNatively(1), s6);
  }

  /** Without prompt releases exclusion fails: task 0 deletes the claim of task 1,
      and task 2 claims the key too. */
  lemma {:induction false} LateDeleteAdmitsTwoHolders() returns (ss: seq<System>, es: seq<Step>)
    ensures IsRun(ss, es) && !Exclusive(ss[|es|])
  {
    var idle := DemoTask(Idle, 0);
    ss, es := LateReader(Demo(map[], 0, idle, idle, idle));
    var s7 := Demo(map[], 10, DemoTask(Idle, 10), DemoTask(Holding, 20), idle);
    var s8 := Demo(map[], 10, DemoTask(Idle, 10), DemoTask(Holding, 20), DemoTask(Trying, 0));
    var s9 := Demo(DemoLease(2, 20), 10, DemoTask(Idle, 10), DemoTask(Holding, 20), DemoTask(Holding, 20));
    ss, es := Extend(ss, es, ss[|es|], Delete(0), s7);
    ss, es := Extend(ss, es, s7, Begin(2), s8);
    ss, es := Extend(ss, es, s8, AddNatively(2), s9);
    assert Owns(s9, 1) && Owns(s9, 2) && !ExclusiveOn(s9, "k");
  }
}
