/**
 Lifetimes over whole runs: every sequence of resolutions and properly nested
 scopes, with fixed bindings.
 */
module ContainerLifetimes {
  import opened Options
  import opened ContainerSpec
  import opened ContainerCycles

  /** The instance is built anew whenever the plan of `a` runs. */
  predicate Mints(g: Graph, a: TypeId) {
    PlanOf(g, a).Wire? && PlanOf(g, a).finish.New?
  }

  // ------------------------------------------------------ state invariants

  ghost predicate AllocatedIn(m: map<TypeId, Obj>, n: nat) {
    forall x | x in m :: m[x].id < n
  }

  ghost predicate GivenAllocated(g: Graph, n: nat) {
    forall x | x in g && g[x].plan.Wire? && g[x].plan.finish.Give? :: g[x].plan.finish.obj.id < n
  }

  ghost predicate KeysHave(g: Graph, m: map<TypeId, Obj>, l: Lifetime) {
    forall x | x in m :: LifetimeOf(g, x) == l
  }

  ghost predicate Distinct(g: Graph, m: map<TypeId, Obj>, m': map<TypeId, Obj>) {
    forall x | x in m && x in m' && Mints(g, x) :: m[x] != m'[x]
  }

  /** Caches hold what the bindings say they may, every instance is allocated,
      and open scopes do not share instances. */
  ghost predicate Tidy(g: Graph, s: State) {
    && GivenAllocated(g, s.nextId)
    && KeysHave(g, s.singletons, Singleton) && AllocatedIn(s.singletons, s.nextId)
    && (forall l | 0 <= l < |s.scopes| :: KeysHave(g, s.scopes[l], Scoped) && AllocatedIn(s.scopes[l], s.nextId))
    && (forall l, m | 0 <= l < m < |s.scopes| :: Distinct(g, s.scopes[l], s.scopes[m]))
  }

  ghost predicate Extends(m: map<TypeId, Obj>, m': map<TypeId, Obj>) {
    forall x | x in m :: x in m' && m'[x] == m[x]
  }

  ghost predicate FreshIn(g: Graph, m: map<TypeId, Obj>, m': map<TypeId, Obj>, n: nat) {
    forall x | x in m' && x !in m && Mints(g, x) :: n <= m'[x].id
  }

  /** What a resolution may change: the caches grow, only the innermost scope
      gains entries, and entries that are minted are new. */
  ghost predicate Grows(g: Graph, s: State, s': State) {
    && s.nextId <= s'.nextId && s'.resolving == s.resolving
    && Extends(s.singletons, s'.singletons)
    && |s'.scopes| == |s.scopes|
    && (|s.scopes| > 0 ==>
          && s'.scopes[..|s.scopes| - 1] == s.scopes[..|s.scopes| - 1]
          && Extends(Top(s), Top(s')) && FreshIn(g, Top(s), Top(s'), s.nextId))
  }

  lemma {:induction false} GrowsTransitive(g: Graph, a: State, b: State, c: State)
    requires Grows(g, a, b) && Grows(g, b, c)
    ensures Grows(g, a, c)
  {
  }

  // --------------------------------------------------- one resolution step

  /** A successful resolution leaves its instance where its lifetime says. */
  ghost predicate Kept(g: Graph, s: State, a: TypeId, o: Obj) {
    match LifetimeOf(g, a)
    case Transient => true
    case Singleton => a in s.singletons && s.singletons[a] == o
    case Scoped => InTop(s, a) && Top(s)[a] == o
  }

  lemma {:induction false} FinishGrows(g: Graph, s: State, p: Plan, made: seq<Obj>)
    requires p.Wire? && |made| == |p.deps| && Tidy(g, s)
    requires p.finish.Give? ==> p.finish.obj.id < s.nextId
    requires forall o | o in made :: o.id < s.nextId
    ensures var (out, s') := FinishPlan(s, p, made);
            Tidy(g, s') && Grows(g, s, s') && s'.scopes == s.scopes && s'.singletons == s.singletons &&
            (out.Ok? ==> out.value.id < s'.nextId && (p.finish.New? ==> out.value.id == s.nextId))
  {
    var s' := FinishPlan(s, p, made).1;
    forall l | 0 <= l < |s'.scopes| ensures AllocatedIn(s'.scopes[l], s'.nextId) {
      assert AllocatedIn(s.scopes[l], s.nextId);
    }
  }

  /** Storing keeps the invariant and adds at most one entry, new since `n`. */
  ghost predicate Stores(g: Graph, s: State, s': State, n: nat) {
    && Tidy(g, s') && s'.nextId == s.nextId && |s'.scopes| == |s.scopes|
    && Extends(s.singletons, s'.singletons)
    && (|s.scopes| > 0 ==>
          && s'.scopes[..|s.scopes| - 1] == s.scopes[..|s.scopes| - 1]
          && Extends(Top(s), Top(s')) && FreshIn(g, Top(s), Top(s'), n))
  }

  lemma {:induction false} StoreGrows(g: Graph, s: State, a: TypeId, o: Obj, n: nat)
    requires Tidy(g, s) && o.id < s.nextId
    requires a !in s.singletons && !InTop(s, a)
    requires Mints(g, a) ==> n <= o.id && forall l | 0 <= l < |s.scopes| :: a in s.scopes[l] ==> s.scopes[l][a] != o
    ensures var (out, s') := Store(g, s, a, o);
            Stores(g, s, s', n) && (out.Ok? ==> out.value == o && Kept(g, s', a, o))
  {
    var s' := Store(g, s, a, o).1;
    if s'.scopes != s.scopes {
      var t := |s.scopes| - 1;
      assert KeysHave(g, Top(s), Scoped) && AllocatedIn(Top(s), s.nextId);
      forall l | 0 <= l < t ensures Distinct(g, s'.scopes[l], s'.scopes[t]) {
        assert Distinct(g, s.scopes[l], s.scopes[t]);
      }
    }
  }

  lemma {:induction false} StoresAfterGrowth(g: Graph, s: State, s3: State, s': State)
    requires Grows(g, s, s3) && Stores(g, s3, s', s.nextId)
    ensures Tidy(g, s'.(resolving := s.resolving)) && Grows(g, s, s'.(resolving := s.resolving))
  {
  }

  ghost predicate Minted(g: Graph, s: State, a: TypeId, o: Obj) {
    a !in Cached(s) && Mints(g, a) ==> s.nextId <= o.id
  }

  ghost predicate Concluded(g: Graph, s: State, a: TypeId, r: (Result<Obj, Error>, State)) {
    Tidy(g, r.1) && Grows(g, s, r.1) &&
    (r.0.Ok? ==> r.0.value.id < r.1.nextId && Kept(g, r.1, a, r.0.value) && Minted(g, s, a, r.0.value))
  }

  /** Every resolution, successful or not, keeps the invariant, unwinds the
      resolution stack and the scope stack, and changes no cached instance. */
  lemma {:induction false} MakeGrows(g: Graph, s: State, a: TypeId)
    requires Tidy(g, s)
    ensures Concluded(g, s, a, Make(g, s, a))
    decreases Unresolved(g, s.resolving), 1
  {
    if a in s.resolving || a in Cached(s) || a !in g {
      if a !in s.resolving && InTop(s, a) {
        assert KeysHave(g, Top(s), Scoped) && AllocatedIn(Top(s), s.nextId);
      }
    } else {
      UncachedGrows(g, s, a);
    }
  }

  lemma {:induction false} NewestIsNowhere(g: Graph, s: State, a: TypeId, o: Obj)
    requires Tidy(g, s) && o.id == s.nextId
    ensures forall l | 0 <= l < |s.scopes| :: a in s.scopes[l] ==> s.scopes[l][a] != o
  {
    forall l | 0 <= l < |s.scopes| && a in s.scopes[l] ensures s.scopes[l][a] != o {
      assert AllocatedIn(s.scopes[l], s.nextId);
    }
  }

  ghost predicate Allocated(os: seq<Obj>, n: nat) {
    forall o | o in os :: o.id < n
  }

  ghost predicate AllConcluded(g: Graph, s: State, r: (Result<seq<Obj>, Error>, State)) {
    Tidy(g, r.1) && Grows(g, s, r.1) && (r.0.Ok? ==> Allocated(r.0.value, r.1.nextId))
  }

  lemma {:induction false} FinishConcludes(g: Graph, s: State, s2: State, a: TypeId, made: seq<Obj>)
    requires PlanOf(g, a).Wire? && |made| == |Deps(g, a)| && a !in Cached(s2)
    requires AllConcluded(g, s.(resolving := s.resolving + [a]), (Ok(made), s2))
    ensures Concluded(g, s, a, Settle(g, FinishPlan(s2, PlanOf(g, a), made), a, s.resolving))
  {
    var p := PlanOf(g, a);
    FinishGrows(g, s2, p, made);
    var (out, s3) := FinishPlan(s2, p, made);
    var base := s3.(resolving := s.resolving);
    assert Tidy(g, base);
    GrowsTransitive(g, s, s2.(resolving := s.resolving), base);
    if out.Ok? {
      if Mints(g, a) {
        NewestIsNowhere(g, s2, a, out.value);
      }
      StoreGrows(g, s3, a, out.value, s.nextId);
      StoresAfterGrowth(g, s, base, Store(g, s3, a, out.value).1);
    }
  }

  predicate Holds(s: State, a: TypeId) {
    a in s.singletons || InTop(s, a)
  }

  lemma {:induction false} AllSkip(g: Graph, s: State, deps: seq<TypeId>, a: TypeId)
    requires a in s.resolving && !Holds(s, a)
    ensures !Holds(MakeAll(g, s, deps).1, a)
    decreases Unresolved(g, s.resolving), 1 + |deps|
  {
    if deps != [] {
      MakeSkips(g, s, deps[0], a);
      if Make(g, s, deps[0]).0.Ok? {
        AllSkip(g, Make(g, s, deps[0]).1, deps[1..], a);
      }
    }
  }

  lemma {:induction false} DependenciesConclude(g: Graph, s: State, a: TypeId)
    requires Tidy(g, s) && a !in s.resolving && a !in Cached(s) && a in g && PlanOf(g, a).Wire?
    requires var s1 := s.(resolving := s.resolving + [a]); AllConcluded(g, s1, MakeAll(g, s1, Deps(g, a)))
    ensures Concluded(g, s, a, Make(g, s, a))
  {
    var p := PlanOf(g, a);
    var s1 := s.(resolving := s.resolving + [a]);
    var (made, s2) := MakeAll(g, s1, p.deps);
    assert RunPlan(g, s1, p) == if made.Err? then (Err(made.error), s2) else FinishPlan(s2, p, made.value);
    if made.Ok? {
      AllSkip(g, s1, p.deps, a);
      FinishConcludes(g, s, s2, a, made.value);
    }
  }

  lemma {:induction false} UncachedGrows(g: Graph, s: State, a: TypeId)
    requires Tidy(g, s) && a !in s.resolving && a !in Cached(s) && a in g
    ensures Concluded(g, s, a, Make(g, s, a))
    decreases Unresolved(g, s.resolving), 0
  {
    if PlanOf(g, a).Wire? {
      PushShrinks(g, s.resolving, a);
      MakeAllGrows(g, s.(resolving := s.resolving + [a]), Deps(g, a));
      DependenciesConclude(g, s, a);
    }
  }

  lemma {:induction false} SettleHolds(
    g: Graph, built: (Result<Obj, Error>, State), b: TypeId, r: seq<TypeId>, a: TypeId)
    requires a != b
    ensures Holds(Settle(g, built, b, r).1, a) == Holds(built.1, a)
  {
  }

  /** Making `b` caches, beyond what its dependencies cache, at most `b`. */
  lemma {:induction false} UncachedHolds(g: Graph, s: State, b: TypeId, a: TypeId)
    requires a != b && b !in s.resolving && !Holds(s, b)
    ensures PlanOf(g, b).Refuse? ==> Holds(Make(g, s, b).1, a) == Holds(s, a)
    ensures PlanOf(g, b).Wire? ==>
              Holds(Make(g, s, b).1, a) == Holds(MakeAll(g, s.(resolving := s.resolving + [b]), Deps(g, b)).1, a)
  {
    if b in g {
      SettleHolds(g, RunPlan(g, s.(resolving := s.resolving + [b]), PlanOf(g, b)), b, s.resolving, a);
    }
  }

  /** While `a` is being resolved nothing can cache it. */
  lemma {:induction false} MakeSkips(g: Graph, s: State, b: TypeId, a: TypeId)
    requires a in s.resolving && !Holds(s, a)
    ensures !Holds(Make(g, s, b).1, a)
    decreases Unresolved(g, s.resolving), 0
  {
    if b !in s.resolving && !Holds(s, b) {
      UncachedHolds(g, s, b, a);
      if PlanOf(g, b).Wire? {
        PushShrinks(g, s.resolving, b);
        AllSkip(g, s.(resolving := s.resolving + [b]), Deps(g, b), a);
      }
    }
  }

  lemma {:induction false} ConsConcludes(g: Graph, s: State, o: Obj, s1: State, rest: (Result<seq<Obj>, Error>, State))
    requires Grows(g, s, s1) && o.id < s1.nextId && AllConcluded(g, s1, rest)
    ensures AllConcluded(g, s, (if rest.0.Err? then rest.0 else Ok([o] + rest.0.value), rest.1))
  {
    GrowsTransitive(g, s, s1, rest.1);
  }

  lemma {:induction false} MakeAllGrows(g: Graph, s: State, deps: seq<TypeId>)
    requires Tidy(g, s)
    ensures AllConcluded(g, s, MakeAll(g, s, deps))
    decreases Unresolved(g, s.resolving), 2 + |deps|
  {
    if deps != [] {
      MakeGrows(g, s, deps[0]);
      var (first, s1) := Make(g, s, deps[0]);
      if first.Ok? {
        MakeAllGrows(g, s1, deps[1..]);
        ConsConcludes(g, s, first.value, s1, MakeAll(g, s1, deps[1..]));
      }
    }
  }

  lemma {:induction false} KeptStays(g: Graph, s: State, s': State, a: TypeId, o: Obj)
    requires Grows(g, s, s') && Kept(g, s, a, o)
    ensures Kept(g, s', a, o)
  {
  }

  /** Each argument is the instance that the caches hold for its type afterwards:
      the singleton of a singleton type, the scope's instance of a scoped one. */
  lemma {:induction false} ArgumentsAreKept(g: Graph, s: State, deps: seq<TypeId>)
    requires Tidy(g, s) && MakeAll(g, s, deps).0.Ok?
    ensures var (made, s') := MakeAll(g, s, deps);
            forall i | 0 <= i < |deps| :: Kept(g, s', deps[i], made.value[i])
    decreases |deps|
  {
    if deps != [] {
      MakeGrows(g, s, deps[0]);
      var (first, s1) := Make(g, s, deps[0]);
      ArgumentsAreKept(g, s1, deps[1..]);
      MakeAllGrows(g, s1, deps[1..]);
      var (rest, s2) := MakeAll(g, s1, deps[1..]);
      KeptStays(g, s1, s2, deps[0], first.value);
      forall i | 0 <= i < |deps| ensures Kept(g, s2, deps[i], ([first.value] + rest.value)[i]) {
        if i > 0 {
          assert deps[i] == deps[1..][i - 1];
        }
      }
    }
  }
}
