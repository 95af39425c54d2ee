/**
 Cycle detection is exact: `Make` fails with a circular dependency only along a
 real dependency path that closes on itself, and it succeeds exactly when the
 graph reachable through uncached types is acyclic and can be built.
 */
module ContainerCycles {
  import opened Options
  import opened ContainerSpec

  function Cached(s: State): set<TypeId> {
    s.singletons.Keys + (if |s.scopes| > 0 then Top(s).Keys else {})
  }

  /** What a resolution can see when it starts. */
  datatype View = View(g: Graph, active: bool, cached: set<TypeId>)

  function ViewOf(g: Graph, s: State): View {
    View(g, |s.scopes| > 0, Cached(s))
  }

  predicate CanBuild(g: Graph, active: bool, a: TypeId) {
    var p := PlanOf(g, a);
    p.Wire? && !p.finish.Fail? && (LifetimeOf(g, a).Scoped? ==> active)
  }

  predicate Buildable(v: View, a: TypeId) {
    CanBuild(v.g, v.active, a)
  }

  /** An uncached type and one of the types its construction asks for. */
  predicate Edge(v: View, x: TypeId, y: TypeId) {
    x !in v.cached && y in Deps(v.g, x)
  }

  ghost predicate IsPath(v: View, p: seq<TypeId>) {
    |p| > 0 && forall i, j | 0 <= i < j < |p| && j == i + 1 :: Edge(v, p[i], p[j])
  }

  ghost predicate NoRepeats(p: seq<TypeId>) {
    forall i, j | 0 <= i < j < |p| :: p[i] != p[j]
  }

  function Last(p: seq<TypeId>): TypeId
    requires |p| > 0
  {
    p[|p| - 1]
  }

  /** A path along which a resolution can run to its end. */
  ghost predicate Resolvable(v: View, p: seq<TypeId>)
    requires |p| > 0
  {
    NoRepeats(p) && (Last(p) in v.cached || Buildable(v, Last(p)))
  }

  /** The path closes on itself: its last type occurs earlier, and nothing else repeats. */
  ghost predicate ClosesCycle(p: seq<TypeId>) {
    |p| > 1 && NoRepeats(p[..|p| - 1]) && Last(p) in p[..|p| - 1]
  }

  // --------------------------------------- derivations of bounded height

  /** `x` can be resolved by a dependency tree of height at most `n`. */
  ghost predicate Good(v: View, n: nat, x: TypeId) {
    x in v.cached || (n > 0 && Buildable(v, x) && forall d | d in Deps(v.g, x) :: Good(v, n - 1, d))
  }

  ghost predicate IsGood(v: View, x: TypeId) {
    exists n: nat :: Good(v, n, x)
  }

  ghost predicate AllGood(v: View, xs: set<TypeId>) {
    forall x | x in xs :: IsGood(v, x)
  }

  ghost predicate EachGood(v: View, xs: seq<TypeId>) {
    forall x | x in xs :: IsGood(v, x)
  }

  lemma {:induction false} GoodMono(v: View, n: nat, m: nat, x: TypeId)
    requires n <= m && Good(v, n, x)
    ensures Good(v, m, x)
  {
    if x !in v.cached {
      forall d | d in Deps(v.g, x) ensures Good(v, m - 1, d) {
        GoodMono(v, n - 1, m - 1, d);
      }
    }
  }

  lemma {:induction false} CommonHeight(v: View, xs: seq<TypeId>) returns (n: nat)
    requires EachGood(v, xs)
    ensures forall x | x in xs :: Good(v, n, x)
  {
    if xs == [] {
      n := 0;
    } else {
      var m := CommonHeight(v, xs[1..]);
      assert IsGood(v, xs[0]);
      var k: nat :| Good(v, k, xs[0]);
      n := if m < k then k else m;
      forall x | x in xs ensures Good(v, n, x) {
        if x == xs[0] {
          GoodMono(v, k, n, x);
        } else {
          assert x in xs[1..];
          GoodMono(v, m, n, x);
        }
      }
    }
  }

  // ------------------------------------------------------ one uncached make

  lemma {:induction false} FinishOutcome(s: State, p: Plan, made: seq<Obj>)
    requires p.Wire? && |made| == |p.deps|
    ensures Cached(FinishPlan(s, p, made).1) == Cached(s)
    ensures FinishPlan(s, p, made).0 == (if p.finish.Fail? then Err(Raised) else Ok(FinishPlan(s, p, made).0.value))
  {
  }

  lemma {:induction false} SettleOutcome(g: Graph, built: (Result<Obj, Error>, State), a: TypeId, r: seq<TypeId>)
    ensures var (out, s') := Settle(g, built, a, r);
            Cached(built.1) <= Cached(s') <= Cached(built.1) + {a} &&
            (Cached(s') != Cached(built.1) ==> out.Ok?) &&
            (built.0.Err? ==> out.Err? && out.error == built.0.error) &&
            (built.0.Ok? && (LifetimeOf(g, a).Scoped? ==> |built.1.scopes| > 0) ==> out.Ok?) &&
            (built.0.Ok? && LifetimeOf(g, a).Scoped? && |built.1.scopes| == 0 ==> out == Err(NoActiveScope(a)))
  {
    var kept := if built.0.Ok? then Store(g, built.1, a, built.0.value) else built;
    assert Cached(kept.1.(resolving := r)) == Cached(kept.1);
    if built.0.Ok? {
      match LifetimeOf(g, a)
      case Transient =>
      case Singleton =>
      case Scoped =>
    }
  }

  /** How the outcome for an uncached type follows from that of its dependencies. */
  ghost predicate Follows(g: Graph, a: TypeId, made: (Result<seq<Obj>, Error>, State), r: (Result<Obj, Error>, State)) {
    && Cached(made.1) <= Cached(r.1) <= Cached(made.1) + {a}
    && (Cached(r.1) != Cached(made.1) ==> r.0.Ok?)
    && (made.0.Err? ==> r.0.Err? && r.0.error == made.0.error)
    && (made.0.Ok? && CanBuild(g, |made.1.scopes| > 0, a) ==> r.0.Ok?)
    && (made.0.Ok? && !CanBuild(g, |made.1.scopes| > 0, a) ==> r.0.Err? && !r.0.error.CircularDependency?)
  }

  lemma {:induction false} UncachedOutcome(g: Graph, s: State, a: TypeId)
    requires a !in s.resolving && a !in Cached(s)
    ensures PlanOf(g, a).Refuse? ==> Make(g, s, a).0.Err? && !Make(g, s, a).0.error.CircularDependency?
                                     && Cached(Make(g, s, a).1) == Cached(s)
    ensures PlanOf(g, a).Wire? ==>
              Follows(g, a, MakeAll(g, s.(resolving := s.resolving + [a]), Deps(g, a)), Make(g, s, a))
  {
    var p := PlanOf(g, a);
    if a in g {
      var s1 := s.(resolving := s.resolving + [a]);
      SettleOutcome(g, RunPlan(g, s1, p), a, s.resolving);
      if p.Wire? {
        var (made, s2) := MakeAll(g, s1, p.deps);
        if made.Ok? {
          FinishOutcome(s2, p, made.value);
        }
      }
    }
  }

  // ------------------------------------------------ success implies Good

  ghost predicate AllDerived(v: View, deps: seq<TypeId>, r: (Result<seq<Obj>, Error>, State)) {
    AllGood(v, Cached(r.1)) && (r.0.Ok? ==> EachGood(v, deps))
  }

  lemma {:induction false} DerivedFromDeps(
    v: View, a: TypeId, made: (Result<seq<Obj>, Error>, State), r: (Result<Obj, Error>, State))
    requires Follows(v.g, a, made, r) && v.active == (|made.1.scopes| > 0)
    requires AllDerived(v, Deps(v.g, a), made)
    ensures AllGood(v, Cached(r.1)) && (r.0.Ok? ==> IsGood(v, a))
  {
    if r.0.Ok? {
      var n := CommonHeight(v, Deps(v.g, a));
      assert Good(v, n + 1, a);
    }
  }

  lemma {:induction false} MakeDerives(v: View, s: State, a: TypeId)
    requires v.active == (|s.scopes| > 0) && AllGood(v, Cached(s))
    ensures AllGood(v, Cached(Make(v.g, s, a).1)) && (Make(v.g, s, a).0.Ok? ==> IsGood(v, a))
    decreases Unresolved(v.g, s.resolving), 1
  {
    if a !in s.resolving && a !in Cached(s) {
      UncachedDerives(v, s, a);
    }
  }

  lemma {:induction false} UncachedDerives(v: View, s: State, a: TypeId)
    requires v.active == (|s.scopes| > 0) && AllGood(v, Cached(s))
    requires a !in s.resolving && a !in Cached(s)
    ensures AllGood(v, Cached(Make(v.g, s, a).1)) && (Make(v.g, s, a).0.Ok? ==> IsGood(v, a))
    decreases Unresolved(v.g, s.resolving), 0
  {
    UncachedOutcome(v.g, s, a);
    if PlanOf(v.g, a).Wire? {
      PushShrinks(v.g, s.resolving, a);
      var s1 := s.(resolving := s.resolving + [a]);
      MakeAllDerives(v, s1, Deps(v.g, a));
      DerivedFromDeps(v, a, MakeAll(v.g, s1, Deps(v.g, a)), Make(v.g, s, a));
    }
  }

  lemma {:induction false} ConsDerived(v: View, deps: seq<TypeId>, o: Obj, rest: (Result<seq<Obj>, Error>, State))
    requires deps != [] && IsGood(v, deps[0]) && AllDerived(v, deps[1..], rest)
    ensures AllDerived(v, deps, (if rest.0.Err? then rest.0 else Ok([o] + rest.0.value), rest.1))
  {
  }

  lemma {:induction false} MakeAllDerives(v: View, s: State, deps: seq<TypeId>)
    requires v.active == (|s.scopes| > 0) && AllGood(v, Cached(s))
    ensures AllDerived(v, deps, MakeAll(v.g, s, deps))
    decreases Unresolved(v.g, s.resolving), 2 + |deps|
  {
    if deps != [] {
      MakeDerives(v, s, deps[0]);
      var (first, s1) := Make(v.g, s, deps[0]);
      if first.Ok? {
        MakeAllDerives(v, s1, deps[1..]);
        ConsDerived(v, deps, first.value, MakeAll(v.g, s1, deps[1..]));
      }
    }
  }

  // ------------------------------------------------ Good implies success

  lemma {:induction false} NoLowerDerivation(v: View, n: nat, xs: seq<TypeId>)
    requires n > 0 && forall x | x in xs :: !Good(v, n, x)
    ensures forall x | x in xs :: !Good(v, n - 1, x)
  {
    forall x | x in xs ensures !Good(v, n - 1, x) {
      if Good(v, n - 1, x) {
        GoodMono(v, n - 1, n, x);
      }
    }
  }

  lemma {:induction false} DerivableMakes(v: View, n: nat, s: State, a: TypeId)
    requires v.active == (|s.scopes| > 0) && v.cached <= Cached(s)
    requires Good(v, n, a) && forall x | x in s.resolving :: !Good(v, n, x)
    ensures Make(v.g, s, a).0.Ok? && v.cached <= Cached(Make(v.g, s, a).1)
    decreases n, 1
  {
    if a !in Cached(s) {
      NoLowerDerivation(v, n, s.resolving);
      if Good(v, n - 1, a) {
        DerivableMakes(v, n - 1, s, a);
      } else {
        UncachedDerivableMakes(v, n, s, a);
      }
    }
  }

  lemma {:induction false} UncachedDerivableMakes(v: View, n: nat, s: State, a: TypeId)
    requires v.active == (|s.scopes| > 0) && v.cached <= Cached(s)
    requires a !in s.resolving && a !in Cached(s)
    requires n > 0 && Good(v, n, a) && forall x | x in s.resolving + [a] :: !Good(v, n - 1, x)
    ensures Make(v.g, s, a).0.Ok? && v.cached <= Cached(Make(v.g, s, a).1)
    decreases n, 0
  {
    UncachedOutcome(v.g, s, a);
    DerivableMakesAll(v, n - 1, s.(resolving := s.resolving + [a]), Deps(v.g, a));
  }

  lemma {:induction false} DerivableMakesAll(v: View, n: nat, s: State, deps: seq<TypeId>)
    requires v.active == (|s.scopes| > 0) && v.cached <= Cached(s)
    requires forall d | d in deps :: Good(v, n, d)
    requires forall x | x in s.resolving :: !Good(v, n, x)
    ensures MakeAll(v.g, s, deps).0.Ok? && v.cached <= Cached(MakeAll(v.g, s, deps).1)
    decreases n, 2 + |deps|
  {
    if deps != [] {
      DerivableMakes(v, n, s, deps[0]);
      DerivableMakesAll(v, n, Make(v.g, s, deps[0]).1, deps[1..]);
    }
  }

  // --------------------------------------------------- Good means acyclic

  lemma {:induction false} SubPath(v: View, p: seq<TypeId>, i: nat, j: nat)
    requires IsPath(v, p) && i < j <= |p|
    ensures IsPath(v, p[i..j])
  {
  }

  lemma {:induction false} GoodAlongPath(v: View, n: nat, p: seq<TypeId>)
    requires IsPath(v, p) && Good(v, n, p[0])
    ensures |p| - 1 <= n && Good(v, n - (|p| - 1), Last(p))
  {
    if |p| > 1 {
      assert Edge(v, p[0], p[1]);
      SubPath(v, p, 1, |p|);
      GoodAlongPath(v, n - 1, p[1..]);
    }
  }

  lemma {:induction false} NoGoodCycle(v: View, n: nat, p: seq<TypeId>)
    requires IsPath(v, p) && |p| > 1 && p[0] == Last(p) && Good(v, n, p[0])
    ensures false
    decreases n
  {
    GoodAlongPath(v, n, p);
    NoGoodCycle(v, n - (|p| - 1), p);
  }

  lemma {:induction false} GoodPathsResolve(v: View, n: nat, p: seq<TypeId>)
    requires IsPath(v, p) && Good(v, n, p[0])
    ensures Resolvable(v, p)
  {
    forall i, j | 0 <= i < j < |p| ensures p[i] != p[j] {
      if p[i] == p[j] {
        SubPath(v, p, 0, i + 1);
        GoodAlongPath(v, n, p[..i + 1]);
        SubPath(v, p, i, j + 1);
        NoGoodCycle(v, n - i, p[i..j + 1]);
      }
    }
    GoodAlongPath(v, n, p);
  }

  /** Without a derivation there is a path that is too long or cannot be built. */
  lemma {:induction false} BadPath(v: View, n: nat, x: TypeId) returns (p: seq<TypeId>)
    requires !Good(v, n, x)
    ensures IsPath(v, p) && p[0] == x && Last(p) !in v.cached
    ensures |p| == n + 1 || !Buildable(v, Last(p))
  {
    p := [x];
    if n > 0 && Buildable(v, x) {
      var d :| d in Deps(v.g, x) && !Good(v, n - 1, d);
      var q := BadPath(v, n - 1, d);
      p := [x] + q;
      assert Edge(v, x, d);
    }
  }

  lemma {:induction false} Pigeonhole(p: seq<TypeId>, u: set<TypeId>)
    requires NoRepeats(p) && forall x | x in p :: x in u
    ensures |p| <= |u|
  {
    if p != [] {
      forall x | x in p[1..] ensures x in u - {p[0]} {
        var i :| 0 <= i < |p[1..]| && p[1..][i] == x;
        assert p[i + 1] == x;
      }
      forall i, j | 0 <= i < j < |p[1..]| ensures p[1..][i] != p[1..][j] {
        assert p[i + 1] != p[j + 1];
      }
      Pigeonhole(p[1..], u - {p[0]});
    }
  }

  lemma {:induction false} NotGoodHasBadPath(v: View, a: TypeId) returns (p: seq<TypeId>)
    requires !IsGood(v, a)
    ensures IsPath(v, p) && p[0] == a && !Resolvable(v, p)
  {
    var u := v.g.Keys;
    p := BadPath(v, |u| + 1, a);
    if Buildable(v, Last(p)) && NoRepeats(p) {
      forall x | x in p[..|p| - 1] ensures x in u {
        var i :| 0 <= i < |p| - 1 && p[i] == x;
        assert Edge(v, p[i], p[i + 1]);
      }
      Pigeonhole(p[..|p| - 1], u);
    }
  }

  // --------------------------------------------------------- the theorems

  /** From the top level, `Make` succeeds iff no path through uncached types
      repeats a type or runs into one that cannot be built. */
  lemma {:induction false} MakeSucceedsIffResolvable(g: Graph, s: State, a: TypeId)
    requires s.resolving == []
    ensures var v := ViewOf(g, s);
            Make(g, s, a).0.Ok? <==> (forall p | IsPath(v, p) && p[0] == a :: Resolvable(v, p))
  {
    var v := ViewOf(g, s);
    forall x | x in Cached(s) ensures IsGood(v, x) {
      assert Good(v, 0, x);
    }
    MakeDerives(v, s, a);
    if Make(g, s, a).0.Ok? {
      var n: nat :| Good(v, n, a);
      forall p | IsPath(v, p) && p[0] == a ensures Resolvable(v, p) {
        GoodPathsResolve(v, n, p);
      }
    } else if IsGood(v, a) {
      var n: nat :| Good(v, n, a);
      DerivableMakes(v, n, s, a);
    } else {
      var p := NotGoodHasBadPath(v, a);
    }
  }

  /** A failure is explained by a dependency path from the requested type: the
      reported chain, or a path to a type that cannot be built. */
  ghost predicate Explains(v: View, p: seq<TypeId>, e: Error) {
    IsPath(v, p) &&
    if e.CircularDependency? then e.chain == p else Last(p) !in v.cached && !Buildable(v, Last(p))
  }

  lemma {:induction false} FailureWitness(v: View, s: State, a: TypeId) returns (p: seq<TypeId>)
    requires v.active == (|s.scopes| > 0) && v.cached <= Cached(s)
    requires IsPath(v, s.resolving + [a])
    ensures v.cached <= Cached(Make(v.g, s, a).1)
    ensures Make(v.g, s, a).0.Err? ==>
              Explains(v, p, Make(v.g, s, a).0.error) && p[0] == (s.resolving + [a])[0]
    decreases Unresolved(v.g, s.resolving), 1
  {
    p := s.resolving + [a];
    if a !in s.resolving && a !in Cached(s) {
      p := UncachedFailureWitness(v, s, a);
    }
  }

  lemma {:induction false} UncachedFailureWitness(v: View, s: State, a: TypeId) returns (p: seq<TypeId>)
    requires v.active == (|s.scopes| > 0) && v.cached <= Cached(s)
    requires IsPath(v, s.resolving + [a])
    requires a !in s.resolving && a !in Cached(s)
    ensures v.cached <= Cached(Make(v.g, s, a).1)
    ensures Make(v.g, s, a).0.Err? ==>
              Explains(v, p, Make(v.g, s, a).0.error) && p[0] == (s.resolving + [a])[0]
    decreases Unresolved(v.g, s.resolving), 0
  {
    p := s.resolving + [a];
    UncachedOutcome(v.g, s, a);
    if PlanOf(v.g, a).Wire? {
      PushShrinks(v.g, s.resolving, a);
      assert forall d | d in Deps(v.g, a) :: Edge(v, a, d);
      var q := AllFailureWitness(v, s.(resolving := p), Deps(v.g, a));
      if MakeAll(v.g, s.(resolving := p), Deps(v.g, a)).0.Err? {
        p := q;
      }
    }
  }

  lemma {:induction false} PathExtends(v: View, p: seq<TypeId>, d: TypeId)
    requires IsPath(v, p) && Edge(v, Last(p), d)
    ensures IsPath(v, p + [d])
  {
    assert forall i | 0 <= i < |p| :: (p + [d])[i] == p[i];
  }

  lemma {:induction false} AllFailureWitness(v: View, s: State, deps: seq<TypeId>) returns (p: seq<TypeId>)
    requires v.active == (|s.scopes| > 0) && v.cached <= Cached(s)
    requires IsPath(v, s.resolving) && forall d | d in deps :: Edge(v, Last(s.resolving), d)
    ensures v.cached <= Cached(MakeAll(v.g, s, deps).1)
    ensures MakeAll(v.g, s, deps).0.Err? ==>
              Explains(v, p, MakeAll(v.g, s, deps).0.error) && p[0] == s.resolving[0]
    decreases Unresolved(v.g, s.resolving), 2 + |deps|
  {
    p := s.resolving;
    if deps != [] {
      PathExtends(v, s.resolving, deps[0]);
      p := FailureWitness(v, s, deps[0]);
      var (first, s1) := Make(v.g, s, deps[0]);
      if first.Ok? {
        p := AllFailureWitness(v, s1, deps[1..]);
      }
    }
  }

  lemma {:induction false} PushNoRepeats(r: seq<TypeId>, a: TypeId)
    requires NoRepeats(r) && a !in r
    ensures NoRepeats(r + [a])
  {
  }

  /** A reported chain is the resolution stack, free of repeats, and the type
      that was already on it. */
  lemma {:induction false} ChainCloses(g: Graph, s: State, a: TypeId)
    requires NoRepeats(s.resolving)
    ensures var out := Make(g, s, a).0;
            out.Err? && out.error.CircularDependency? ==> ClosesCycle(out.error.chain)
    decreases Unresolved(g, s.resolving), 1
  {
    if a in s.resolving {
      var chain := s.resolving + [a];
      assert chain[..|chain| - 1] == s.resolving;
    } else if a !in Cached(s) {
      UncachedOutcome(g, s, a);
      if PlanOf(g, a).Wire? {
        PushShrinks(g, s.resolving, a);
        PushNoRepeats(s.resolving, a);
        AllChainsClose(g, s.(resolving := s.resolving + [a]), Deps(g, a));
      }
    }
  }

  lemma {:induction false} AllChainsClose(g: Graph, s: State, deps: seq<TypeId>)
    requires NoRepeats(s.resolving)
    ensures var out := MakeAll(g, s, deps).0;
            out.Err? && out.error.CircularDependency? ==> ClosesCycle(out.error.chain)
    decreases Unresolved(g, s.resolving), 2 + |deps|
  {
    if deps != [] {
      ChainCloses(g, s, deps[0]);
      if Make(g, s, deps[0]).0.Ok? {
        AllChainsClose(g, Make(g, s, deps[0]).1, deps[1..]);
      }
    }
  }

  /** The chain of a circular-dependency error starts at the requested type,
      follows real dependencies of uncached types and ends in its only repeat. */
  lemma {:induction false} CircularErrorIsRealCycle(g: Graph, s: State, a: TypeId)
    requires s.resolving == []
    requires Make(g, s, a).0.Err? && Make(g, s, a).0.error.CircularDependency?
    ensures var chain := Make(g, s, a).0.error.chain;
            IsPath(ViewOf(g, s), chain) && chain[0] == a && ClosesCycle(chain)
  {
    ChainCloses(g, s, a);
    assert s.resolving + [a] == [a];
    var p := FailureWitness(ViewOf(g, s), s, a);
  }

  /** Where every reachable uncached type can be built, resolution fails iff the
      reachable graph has a cycle, and it then fails with a circular dependency. */
  lemma {:induction false} CyclesAreTheOnlyFailures(g: Graph, s: State, a: TypeId)
    requires s.resolving == []
    requires forall p | IsPath(ViewOf(g, s), p) && p[0] == a ::
               Last(p) in Cached(s) || Buildable(ViewOf(g, s), Last(p))
    ensures Make(g, s, a).0.Ok? <==> (forall p | IsPath(ViewOf(g, s), p) && p[0] == a :: NoRepeats(p))
    ensures Make(g, s, a).0.Err? ==> Make(g, s, a).0.error.CircularDependency?
  {
    MakeSucceedsIffResolvable(g, s, a);
    assert s.resolving + [a] == [a];
    var p := FailureWitness(ViewOf(g, s), s, a);
  }
}
