/**
 What the bindings and classes promise of a resolution, said without the graph: which
 lifetime a type has, what it asks the container for, and how its making ends.
 */
module ContainerRules {
  import opened Options
  import opened ContainerSpec
  import opened ContainerCycles
  import opened ContainerLifetimes

  /** The lifetime is the binding's; an unbound type is transient. */
  lemma {:induction false} LifetimesAreBound(w: World, a: TypeId)
    ensures a in w.bindings ==> LifetimeOf(GraphOf(w), a) == w.bindings[a].lifetime
    ensures a !in w.bindings ==> LifetimeOf(GraphOf(w), a) == Transient
  {
    GraphDescribes(w);
    assert Linked(GraphOf(w), w, a);
  }

  /** Neither on the resolution stack nor to be had from a cache. */
  predicate Pending(s: State, a: TypeId) {
    a !in s.resolving && a !in s.singletons && !InTop(s, a)
  }

  /** The state in which the dependencies of `a` are made. */
  function Resolving(s: State, a: TypeId): State {
    s.(resolving := s.resolving + [a])
  }

  /** What was built is handed out, except that a scoped type needs an open scope. */
  predicate Delivers(w: World, s: State, a: TypeId, built: Result<Obj, Error>, r: Result<Obj, Error>) {
    if built.Ok? && a in w.bindings && w.bindings[a].lifetime == Scoped && |s.scopes| == 0
    then r == Err(NoActiveScope(a))
    else r == built
  }

  lemma {:induction false} PendingMake(w: World, s: State, a: TypeId)
    requires Pending(s, a)
    ensures var g := GraphOf(w);
            a in g ==>
              Delivers(w, s, a, RunPlan(g, Resolving(s, a), PlanOf(g, a)).0, Make(g, s, a).0)
    ensures a !in GraphOf(w) ==> Make(GraphOf(w), s, a) == (Err(BindingError(a)), s)
  {
    LifetimesAreBound(w, a);
  }

  // --------------------------------------------------------------- factories

  predicate BoundTo(w: World, a: TypeId, c: Concrete) {
    a in w.bindings && w.bindings[a].concrete == c
  }

  /** A factory asks for the types it makes, in its order; an alias for its target. */
  lemma {:induction false} FactoryDependencies(w: World, a: TypeId, c: Concrete)
    requires BoundTo(w, a, c)
    ensures c.Factory? ==> Deps(GraphOf(w), a) == c.calls
    ensures c.Alias? ==> Deps(GraphOf(w), a) == [c.target]
  {
    GraphDescribes(w);
    assert Linked(GraphOf(w), w, a);
  }

  /** A factory that cannot make one of its types passes the error on. Otherwise it
      builds a new object, hands out the one it was given, or raises. */
  lemma {:induction false} FactoryOutcome(w: World, s: State, a: TypeId, calls: seq<TypeId>, outcome: Outcome)
    requires BoundTo(w, a, Factory(calls, outcome)) && Pending(s, a)
    ensures var g := GraphOf(w);
            var (made, s2) := MakeAll(g, Resolving(s, a), calls);
            var built := if made.Err? then Err(made.error) else
                         match outcome
                         case Builds => Ok(Obj(s2.nextId, []))
                         case Returns(o) => Ok(o)
                         case Raises => Err(Raised);
            Delivers(w, s, a, built, Make(g, s, a).0)
  {
    var g := GraphOf(w);
    GraphDescribes(w);
    assert Linked(g, w, a);
    PendingMake(w, s, a);
    var (made, s2) := MakeAll(g, Resolving(s, a), calls);
    if made.Ok? && outcome.Builds? {
      assert FinishPlan(s2, PlanOf(g, a), made.value).0.value.kwargs == [];
    }
  }

  lemma {:induction false} RunAlias(g: Graph, s: State, t: TypeId)
    ensures RunPlan(g, s, Wire([t], Forward)) == Make(g, s, t)
  {
    assert [t][1..] == [];
    assert MakeAll(g, Make(g, s, t).1, []) == (Ok([]), Make(g, s, t).1);
  }

  /** An alias hands out what its target resolves to. */
  lemma {:induction false} AliasOutcome(w: World, s: State, a: TypeId, target: TypeId)
    requires BoundTo(w, a, Alias(target)) && Pending(s, a)
    ensures var g := GraphOf(w);
            Delivers(w, s, a, Make(g, Resolving(s, a), target).0, Make(g, s, a).0)
  {
    var g := GraphOf(w);
    GraphDescribes(w);
    assert Linked(g, w, a);
    PendingMake(w, s, a);
    RunAlias(g, Resolving(s, a), target);
  }

  /** Two factories that make each other's type raise, and the chain shows the cycle. */
  lemma {:induction false} MutualFactoriesRaise(w: World, s: State, a: TypeId, b: TypeId, x: Outcome, y: Outcome)
    requires BoundTo(w, a, Factory([b], x)) && BoundTo(w, b, Factory([a], y)) && a != b
    requires s.resolving == [] && Pending(s, a) && Pending(s, b)
    ensures Make(GraphOf(w), s, a).0 == Err(CircularDependency([a, b, a]))
  {
    var g := GraphOf(w);
    var s1 := Resolving(s, a);
    assert s1.resolving == [a] && Pending(s1, b) && Resolving(s1, b).resolving == [a, b];
    FactoryOutcome(w, s, a, [b], x);
    FactoryOutcome(w, s1, b, [a], y);
    assert Make(g, Resolving(s1, b), a).0 == Err(CircularDependency([a, b] + [a]));
    assert [a, b] + [a] == [a, b, a];
    assert MakeAll(g, Resolving(s1, b), [a]).0 == Err(CircularDependency([a, b, a]));
    assert MakeAll(g, s1, [b]).0 == Err(CircularDependency([a, b, a]));
  }

  // ------------------------------------------------------------ constructors

  /** The type is built from this constructor: bound to the class, or an unbound class
      that is neither a protocol nor abstract. */
  predicate Constructs(w: World, a: TypeId, ctor: Ctor) {
    if a in w.bindings then w.bindings[a].concrete == Class(ctor)
    else a in w.classes && w.classes[a].kind == Plain && w.classes[a].ctor == ctor
  }

  /** A parameter that cannot be supplied: neither annotated nor defaulted, or variadic. */
  predicate Refuses(ctor: Ctor) {
    ctor.variadic || exists p | p in ctor.params :: p.annotation.None? && !p.hasDefault
  }

  /** The parameter is supplied by making `d`: its annotation, unless it has a default
      and the annotated type is not bound. */
  predicate Asks(w: World, p: Param, d: TypeId) {
    p.annotation == Some(d) && (p.hasDefault ==> d in w.bindings)
  }

  lemma {:induction false} WiringConcat(w: World, ps: seq<Param>, qs: seq<Param>)
    ensures Wiring(w, ps + qs) == Wiring(w, ps) + Wiring(w, qs)
  {
    if ps == [] {
      assert ps + qs == qs;
    } else {
      assert (ps + qs)[1..] == ps[1..] + qs;
      WiringConcat(w, ps[1..], qs);
    }
  }

  /** The arguments are those of the asking parameters, in the order of declaration, each
      under its parameter's name; `at` are their positions. */
  lemma {:induction false} ArgumentsFollowParameters(w: World, ps: seq<Param>) returns (at: seq<nat>)
    ensures |at| == |Wiring(w, ps)|
    ensures forall k | 0 <= k < |at| ::
              at[k] < |ps| && Asks(w, ps[at[k]], Wiring(w, ps)[k].1) && Wiring(w, ps)[k].0 == ps[at[k]].name
    ensures forall k, l | 0 <= k < l < |at| :: at[k] < at[l]
    ensures forall n: nat | n < |ps| && ps[n].annotation.Some? && Asks(w, ps[n], ps[n].annotation.value) :: n in at
  {
    if ps == [] {
      at := [];
    } else {
      var n := |ps| - 1;
      at := ArgumentsFollowParameters(w, ps[..n]);
      assert ps == ps[..n] + [ps[n]] && [ps[n]][1..] == [];
      WiringConcat(w, ps[..n], [ps[n]]);
      if Wired(w, ps[n]) {
        at := at + [n];
      }
    }
  }

  lemma {:induction false} ConstructorPlan(w: World, a: TypeId, ctor: Ctor)
    requires Constructs(w, a, ctor)
    ensures a in GraphOf(w)
    ensures PlanOf(GraphOf(w), a) == if Refuses(ctor) then Refuse(ResolutionError) else
              Wire(Types(Wiring(w, ctor.params)), if ctor.raises then Fail else New(Names(Wiring(w, ctor.params))))
  {
    GraphDescribes(w);
    assert Linked(GraphOf(w), w, a);
  }

  lemma {:induction false} WiringMembers(w: World, ps: seq<Param>, d: TypeId)
    ensures d in Types(Wiring(w, ps)) <==> exists p :: p in ps && Asks(w, p, d)
  {
    var at := ArgumentsFollowParameters(w, ps);
    if d in Types(Wiring(w, ps)) {
      var k :| 0 <= k < |Types(Wiring(w, ps))| && Types(Wiring(w, ps))[k] == d;
      assert ps[at[k]] in ps && Asks(w, ps[at[k]], d);
    }
    if p :| p in ps && Asks(w, p, d) {
      var n :| 0 <= n < |ps| && ps[n] == p;
      var k :| 0 <= k < |at| && at[k] == n;
      assert Types(Wiring(w, ps))[k] == d;
    }
  }

  /** A class that is not refused depends on the annotations of its parameters, except
      those of defaulted parameters whose type is not bound; a refused one on nothing. */
  lemma {:induction false} DependenciesFollowRules(w: World, a: TypeId, ctor: Ctor, d: TypeId)
    requires Constructs(w, a, ctor)
    ensures d in Deps(GraphOf(w), a) <==> !Refuses(ctor) && exists p :: p in ctor.params && Asks(w, p, d)
  {
    ConstructorPlan(w, a, ctor);
    WiringMembers(w, ctor.params, d);
  }

  lemma {:induction false} ConstructedObject(w: World, s: State, a: TypeId, ctor: Ctor)
    requires Constructs(w, a, ctor) && !Refuses(ctor)
    ensures var g, ws := GraphOf(w), Wiring(w, ctor.params);
            var (made, s2) := MakeAll(g, Resolving(s, a), Types(ws));
            RunPlan(g, Resolving(s, a), PlanOf(g, a)).0 ==
            if made.Err? then Err(made.error) else if ctor.raises then Err(Raised) else
            Ok(Obj(s2.nextId, seq(|ws|, i requires 0 <= i < |ws| => (ws[i].0, made.value[i]))))
  {
    var g, ws := GraphOf(w), Wiring(w, ctor.params);
    ConstructorPlan(w, a, ctor);
    var (made, s2) := MakeAll(g, Resolving(s, a), Types(ws));
    if made.Ok? && !ctor.raises {
      assert FinishPlan(s2, PlanOf(g, a), made.value).0.value.kwargs ==
             seq(|ws|, i requires 0 <= i < |ws| => (ws[i].0, made.value[i]));
    }
  }

  /** A constructor is refused before anything is made exactly if a parameter cannot be
      supplied. Otherwise a dependency's error is passed on, or the constructor raises,
      or there is a new object with each made instance under its parameter's name. */
  lemma {:induction false} ConstructorOutcome(w: World, s: State, a: TypeId, ctor: Ctor)
    requires Constructs(w, a, ctor) && Pending(s, a)
    ensures Refuses(ctor) ==> Make(GraphOf(w), s, a) == (Err(ResolutionError), s)
    ensures !Refuses(ctor) ==>
              var g, ws := GraphOf(w), Wiring(w, ctor.params);
              var (made, s2) := MakeAll(g, Resolving(s, a), Types(ws));
              var built := if made.Err? then Err(made.error) else if ctor.raises then Err(Raised) else
                           Ok(Obj(s2.nextId, seq(|ws|, i requires 0 <= i < |ws| => (ws[i].0, made.value[i]))));
              Delivers(w, s, a, built, Make(g, s, a).0)
  {
    ConstructorPlan(w, a, ctor);
    PendingMake(w, s, a);
    if !Refuses(ctor) {
      ConstructedObject(w, s, a, ctor);
    } else {
      assert Make(GraphOf(w), s, a).1 == s;
    }
  }

  /** What is neither bound nor a class, or an unbound protocol or abstract class, is
      refused, and nothing changes. */
  lemma {:induction false} UnboundIsRefused(w: World, s: State, a: TypeId)
    requires a !in w.bindings && (a !in w.classes || w.classes[a].kind != Plain) && Pending(s, a)
    ensures Make(GraphOf(w), s, a) == (Err(BindingError(a)), s)
  {
    GraphDescribes(w);
    assert Linked(GraphOf(w), w, a);
    PendingMake(w, s, a);
    assert a in GraphOf(w) ==> Make(GraphOf(w), s, a).1 == s;
  }

  /** A type on the resolution stack raises before any cache is looked at; otherwise a
      singleton is handed out, and else the instance of the innermost scope. */
  lemma {:induction false} CachesAnswerFirst(g: Graph, s: State, a: TypeId)
    ensures a in s.resolving ==> Make(g, s, a) == (Err(CircularDependency(s.resolving + [a])), s)
    ensures a !in s.resolving && a in s.singletons ==> Make(g, s, a) == (Ok(s.singletons[a]), s)
    ensures a !in s.resolving && a !in s.singletons && |s.scopes| > 0 && a in s.scopes[|s.scopes| - 1] ==>
              Make(g, s, a) == (Ok(s.scopes[|s.scopes| - 1][a]), s)
  {
  }
}
