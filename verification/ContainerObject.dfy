/**
 The container as the object it is: four mutable fields, and methods that are
 proved to compute the resolution of `ContainerSpec`.
 */
module ContainerObject {
  import opened Options
  import opened ContainerSpec
  import opened ContainerBinding
  import opened ContainerRules
  import ContainerLifetimes

  // ------------------------------------------ loops against the specification

  lemma {:induction false} WiringNext(w: World, ps: seq<Param>, i: nat)
    requires i < |ps|
    ensures Wiring(w, ps[..i + 1]) ==
              if Wired(w, ps[i]) then Wiring(w, ps[..i]) + [(ps[i].name, ps[i].annotation.value)]
              else Wiring(w, ps[..i])
  {
    assert ps[..i + 1] == ps[..i] + [ps[i]];
    WiringConcat(w, ps[..i], [ps[i]]);
    assert [ps[i]][1..] == [];
  }

  lemma {:induction false} MakeAllAppend(g: Graph, s: State, xs: seq<TypeId>, y: TypeId)
    ensures var (made, s') := MakeAll(g, s, xs);
            MakeAll(g, s, xs + [y]) ==
              if made.Err? then (made, s')
              else var (last, s'') := Make(g, s', y);
                   (if last.Err? then Err(last.error) else Ok(made.value + [last.value]), s'')
    decreases |xs|
  {
    if xs == [] {
      assert xs + [y] == [y] && [y][1..] == [];
      var (last, s') := Make(g, s, y);
      if last.Ok? {
        assert [last.value] + [] == [] + [last.value];
      }
    } else {
      assert (xs + [y])[1..] == xs[1..] + [y];
      var (first, s1) := Make(g, s, xs[0]);
      if first.Ok? {
        MakeAllAppend(g, s1, xs[1..], y);
        var (rest, s2) := MakeAll(g, s1, xs[1..]);
        var (last, s3) := Make(g, s2, y);
        if rest.Ok? && last.Ok? {
          assert [first.value] + (rest.value + [last.value]) == ([first.value] + rest.value) + [last.value];
        }
      }
    }
  }

  lemma {:induction false} MakeAllFails(g: Graph, s: State, xs: seq<TypeId>, ys: seq<TypeId>)
    requires MakeAll(g, s, xs).0.Err?
    ensures MakeAll(g, s, xs + ys) == MakeAll(g, s, xs)
    decreases |xs|
  {
    assert (xs + ys)[1..] == xs[1..] + ys;
    if Make(g, s, xs[0]).0.Ok? {
      MakeAllFails(g, Make(g, s, xs[0]).1, xs[1..], ys);
    }
  }

  /** The constructor arguments collected so far. */
  function Kwargs(ws: seq<(string, TypeId)>, made: seq<Obj>): seq<(string, Obj)>
    requires |ws| == |made|
  {
    seq(|ws|, i requires 0 <= i < |ws| => (ws[i].0, made[i]))
  }

  // Building a class, seen as a loop over the parameters of its constructor.

  /** With the wiring `ws` dealt with: what was made, and the state it left. */
  ghost predicate Collected(
    g: Graph, s: State, ws: seq<(string, TypeId)>, kwargs: seq<(string, Obj)>, made: seq<Obj>, now: State)
  {
    |made| == |ws| && MakeAll(g, s, Types(ws)) == (Ok(made), now) && kwargs == Kwargs(ws, made)
  }

  lemma {:induction false} CollectMakes(
    g: Graph, s: State, ws: seq<(string, TypeId)>, kwargs: seq<(string, Obj)>, made: seq<Obj>, now: State,
    name: string, t: TypeId)
    requires Collected(g, s, ws, kwargs, made, now)
    ensures var (out, next) := Make(g, now, t);
            if out.Ok? then
              Collected(g, s, ws + [(name, t)], kwargs + [(name, out.value)], made + [out.value], next)
            else
              MakeAll(g, s, Types(ws + [(name, t)])) == (Err(out.error), next)
  {
    assert Types(ws + [(name, t)]) == Types(ws) + [t];
    MakeAllAppend(g, s, Types(ws), t);
  }

  lemma {:induction false} CollectFails(g: Graph, s: State, w: World, ps: seq<Param>, i: nat)
    requires i <= |ps| && MakeAll(g, s, Types(Wiring(w, ps[..i]))).0.Err?
    ensures MakeAll(g, s, Types(Wiring(w, ps))) == MakeAll(g, s, Types(Wiring(w, ps[..i])))
  {
    var ws, rest := Wiring(w, ps[..i]), Wiring(w, ps[i..]);
    assert Types(Wiring(w, ps)) == Types(ws) + Types(rest) by {
      assert ps == ps[..i] + ps[i..];
      WiringConcat(w, ps[..i], ps[i..]);
    }
    MakeAllFails(g, s, Types(ws), Types(rest));
  }

  lemma {:induction false} CollectEnds(
    g: Graph, s: State, w: World, c: Ctor, kwargs: seq<(string, Obj)>, made: seq<Obj>, now: State)
    requires Inspectable(c) && Collected(g, s, Wiring(w, c.params), kwargs, made, now)
    ensures RunPlan(g, s, CtorPlan(w, c)) ==
              if c.raises then (Err(Raised), now)
              else (Ok(Obj(now.nextId, kwargs)), now.(nextId := now.nextId + 1))
  {
    if !c.raises {
      assert FinishPlan(now, CtorPlan(w, c), made).0.value.kwargs == kwargs;
    }
  }

  lemma {:induction false} PushMeasure(g: Graph, r: seq<TypeId>, a: TypeId)
    requires a !in r
    ensures if a in g then Unresolved(g, r + [a]) < Unresolved(g, r)
            else Unresolved(g, r + [a]) == Unresolved(g, r)
  {
    if a in g {
      PushShrinks(g, r, a);
    } else {
      assert g.Keys - Elems(r) == g.Keys - Elems(r + [a]);
    }
  }

  function Hit(s: State, a: TypeId): Option<Obj> {
    if a in s.singletons then Some(s.singletons[a]) else if InTop(s, a) then Some(Top(s)[a]) else None
  }

  lemma {:induction false} CachedMake(g: Graph, s: State, a: TypeId)
    requires a !in s.resolving && Hit(s, a).Some?
    ensures Make(g, s, a) == (Ok(Hit(s, a).value), s)
  {
  }

  lemma {:induction false} UncachedMake(g: Graph, s: State, a: TypeId)
    requires a !in s.resolving && Hit(s, a).None?
    ensures Make(g, s, a) ==
              Settle(g, RunPlan(g, s.(resolving := s.resolving + [a]), PlanOf(g, a)), a, s.resolving)
  {
  }

  lemma {:induction false} RunNext(g: Graph, s: State, calls: seq<TypeId>, i: nat, made: seq<Obj>, now: State)
    requires i < |calls| && MakeAll(g, s, calls[..i]) == (Ok(made), now)
    ensures var (out, next) := Make(g, now, calls[i]);
            if out.Ok? then MakeAll(g, s, calls[..i + 1]) == (Ok(made + [out.value]), next)
            else MakeAll(g, s, calls) == (Err(out.error), next)
  {
    assert calls[..i + 1] == calls[..i] + [calls[i]];
    MakeAllAppend(g, s, calls[..i], calls[i]);
    if Make(g, now, calls[i]).0.Err? {
      assert calls == calls[..i + 1] + calls[i + 1..];
      MakeAllFails(g, s, calls[..i + 1], calls[i + 1..]);
    }
  }

  lemma {:induction false} EmptyKwargs(s: State, calls: seq<TypeId>, made: seq<Obj>)
    requires |made| == |calls|
    ensures FinishPlan(s, Wire(calls, New([])), made) == (Ok(Obj(s.nextId, [])), s.(nextId := s.nextId + 1))
  {
    assert FinishPlan(s, Wire(calls, New([])), made).0.value.kwargs == [];
  }

  class Container {
    const classes: map<TypeId, ClassInfo>

    var bindings: map<TypeId, Binding>
    var singletons: map<TypeId, Obj>
    var scopeStack: seq<map<TypeId, Obj>>
    var resolving: seq<TypeId>

    /** The identity that the next constructed object gets. */
    var nextId: nat

    function TheWorld(): World
      reads this
    {
      World(classes, bindings)
    }

    function Snapshot(): State
      reads this
    {
      State(singletons, scopeStack, resolving, nextId)
    }

    /** The caches are in line with the bindings, as every run of the container assumes. */
    ghost predicate InOrder()
      reads this
    {
      ContainerLifetimes.Tidy(GraphOf(TheWorld()), Snapshot())
    }

    constructor (classes: map<TypeId, ClassInfo>)
      ensures this.classes == classes && bindings == map[]
      ensures Snapshot() == State(map[], [], [], 0) && InOrder()
    {
      this.classes := classes;
      bindings, singletons, scopeStack, resolving, nextId := map[], map[], [], [], 0;
      InitialIsTidy(classes);
    }

    // ------------------------------------------------------------- binding

    /** Keeps the identity of an object made elsewhere from being given out again. */
    method Reserve(concrete: Concrete)
      modifies this`nextId
      ensures Snapshot() == Registered(old(Snapshot()), concrete)
    {
      if concrete.Factory? && concrete.outcome.Returns? && nextId <= concrete.outcome.obj.id {
        nextId := concrete.outcome.obj.id + 1;
      }
    }

    method Bind(wanted: TypeId, concrete: Concrete, lifetime: Lifetime)
      modifies this
      ensures bindings == old(bindings)[wanted := Binding(concrete, lifetime)]
      ensures Snapshot() == Registered(old(Snapshot()), concrete)
      ensures old(InOrder()) ==> (InOrder() <==> FitsCaches(GraphOf(TheWorld()), Snapshot(), wanted))
    {
      if InOrder() {
        BindKeepsTidyIff(TheWorld(), Snapshot(), wanted, Binding(concrete, lifetime));
      }
      bindings := bindings[wanted := Binding(concrete, lifetime)];
      Reserve(concrete);
    }

    /** Binding as a singleton drops a cached instance, so that the rebinding shows. */
    method BindSingleton(wanted: TypeId, concrete: Concrete)
      modifies this
      ensures bindings == old(bindings)[wanted := Binding(concrete, Singleton)]
      ensures Snapshot() == Registered(old(Snapshot()), concrete).(singletons := old(singletons) - {wanted})
      ensures old(InOrder()) ==>
                (InOrder() <==> forall l | 0 <= l < |scopeStack| :: wanted !in scopeStack[l])
    {
      if InOrder() {
        BindSingletonKeepsTidyIff(TheWorld(), Snapshot(), wanted, concrete);
      }
      Bind(wanted, concrete, Singleton);
      singletons := singletons - {wanted};
    }

    method BindScoped(wanted: TypeId, concrete: Concrete)
      modifies this
      ensures bindings == old(bindings)[wanted := Binding(concrete, Scoped)]
      ensures Snapshot() == Registered(old(Snapshot()), concrete)
      ensures old(InOrder()) ==> (InOrder() <==> FitsCaches(GraphOf(TheWorld()), Snapshot(), wanted))
    {
      Bind(wanted, concrete, Scoped);
    }

    method Instance(wanted: TypeId, obj: Obj)
      modifies this
      ensures bindings == old(bindings)[wanted := Binding(Factory([], Returns(obj)), Singleton)]
      ensures Snapshot() ==
                Registered(old(Snapshot()), Factory([], Returns(obj))).(singletons := old(singletons)[wanted := obj])
      ensures old(InOrder()) ==>
                (InOrder() <==> forall l | 0 <= l < |scopeStack| :: wanted !in scopeStack[l])
    {
      if InOrder() {
        InstanceKeepsTidyIff(TheWorld(), Snapshot(), wanted, obj);
      }
      bindings := bindings[wanted := Binding(Factory([], Returns(obj)), Singleton)];
      Reserve(Factory([], Returns(obj)));
      singletons := singletons[wanted := obj];
    }

    // ------------------------------------------------------------- scoping

    method EnterScope()
      modifies this
      ensures bindings == old(bindings)
      ensures Snapshot() == old(Snapshot()).(scopes := old(scopeStack) + [map[]])
      ensures old(InOrder()) ==> InOrder()
    {
      scopeStack := scopeStack + [map[]];
    }

    method ExitScope()
      requires |scopeStack| > 0
      modifies this
      ensures bindings == old(bindings)
      ensures Snapshot() == old(Snapshot()).(scopes := old(scopeStack)[..|old(scopeStack)| - 1])
      ensures old(InOrder()) ==> InOrder()
    {
      scopeStack := scopeStack[..|scopeStack| - 1];
    }

    // ---------------------------------------------------------- resolution

    /** The singleton, or else the instance of the innermost scope. */
    method Cached(wanted: TypeId) returns (hit: Option<Obj>)
      ensures hit == Hit(Snapshot(), wanted)
    {
      if wanted in singletons {
        return Some(singletons[wanted]);
      }
      if |scopeStack| > 0 {
        var current := scopeStack[|scopeStack| - 1];
        if wanted in current {
          return Some(current[wanted]);
        }
      }
      hit := None;
    }

    method Make(wanted: TypeId, ghost g: Graph) returns (r: Result<Obj, Error>)
      requires Describes(g, TheWorld())
      modifies this
      ensures bindings == old(bindings) && resolving == old(resolving)
      ensures (r, Snapshot()) == ContainerSpec.Make(g, old(Snapshot()), wanted)
      ensures old(InOrder()) ==> InOrder()
      decreases Unresolved(g, resolving), 1
    {
      if InOrder() {
        MakeKeepsTidy(TheWorld(), g, Snapshot(), wanted);
      }
      if wanted in resolving {
        return Err(CircularDependency(resolving + [wanted]));
      }
      ghost var s := Snapshot();
      var cached := Cached(wanted);
      if cached.Some? {
        CachedMake(g, s, wanted);
        return Ok(cached.value);
      }
      UncachedMake(g, s, wanted);
      r := Guarded(wanted, g);
    }

    /** The resolution stack is pushed, and unwound on success and on every error. */
    method Guarded(wanted: TypeId, ghost g: Graph) returns (r: Result<Obj, Error>)
      requires Describes(g, TheWorld()) && wanted !in resolving
      modifies this
      ensures bindings == old(bindings) && resolving == old(resolving)
      ensures var s := old(Snapshot());
              (r, Snapshot()) ==
              Settle(g, RunPlan(g, s.(resolving := s.resolving + [wanted]), PlanOf(g, wanted)), wanted, s.resolving)
      decreases Unresolved(g, resolving), 0
    {
      ghost var s := Snapshot();
      PushMeasure(g, resolving, wanted);
      resolving := resolving + [wanted];
      r := Produce(wanted, g);
      resolving := resolving[..|resolving| - 1];
      assert resolving == s.resolving;
    }

    method Keep(wanted: TypeId, obj: Obj, ghost g: Graph) returns (r: Result<Obj, Error>)
      requires wanted in bindings && LifetimeOf(g, wanted) == bindings[wanted].lifetime
      modifies this
      ensures bindings == old(bindings) && resolving == old(resolving)
      ensures (r, Snapshot()) == Store(g, old(Snapshot()), wanted, obj)
    {
      match bindings[wanted].lifetime
      case Transient =>
        r := Ok(obj);
      case Singleton =>
        singletons := singletons[wanted := obj];
        r := Ok(obj);
      case Scoped =>
        if |scopeStack| == 0 {
          return Err(NoActiveScope(wanted));
        }
        var top := scopeStack[|scopeStack| - 1];
        scopeStack := scopeStack[|scopeStack| - 1 := top[wanted := obj]];
        r := Ok(obj);
    }

    /** The block that is guarded by the unwinding of the resolution stack. */
    method Produce(wanted: TypeId, ghost g: Graph) returns (r: Result<Obj, Error>)
      requires Describes(g, TheWorld())
      modifies this
      ensures bindings == old(bindings) && resolving == old(resolving)
      ensures var built := RunPlan(g, old(Snapshot()), PlanOf(g, wanted));
              (r, Snapshot()) == if built.0.Ok? then Store(g, built.1, wanted, built.0.value) else built
      decreases Unresolved(g, resolving), if wanted in g then 6 + |Deps(g, wanted)| else 0, 1
    {
      assert Linked(g, TheWorld(), wanted);
      if wanted !in bindings {
        r := AutoResolve(wanted, g);
        return;
      }
      r := Instantiate(bindings[wanted].concrete, g);
      if r.Ok? {
        r := Keep(wanted, r.value, g);
      }
    }

    method AutoResolve(wanted: TypeId, ghost g: Graph) returns (r: Result<Obj, Error>)
      requires Describes(g, TheWorld()) && wanted !in bindings
      modifies this
      ensures bindings == old(bindings) && resolving == old(resolving)
      ensures (r, Snapshot()) == RunPlan(g, old(Snapshot()), AutoPlan(old(TheWorld()), wanted))
      decreases Unresolved(g, resolving), if wanted in g then 6 + |Deps(g, wanted)| else 0, 0
    {
      assert Linked(g, TheWorld(), wanted);
      if wanted !in classes || classes[wanted].kind.Protocol? || classes[wanted].kind.Abstract? {
        return Err(BindingError(wanted));
      }
      r := Build(classes[wanted].ctor, g);
    }

    /** A bound class is built; a factory is run, and may make types of its own. */
    method Instantiate(concrete: Concrete, ghost g: Graph) returns (r: Result<Obj, Error>)
      requires Describes(g, TheWorld())
      modifies this
      ensures bindings == old(bindings) && resolving == old(resolving)
      ensures (r, Snapshot()) == RunPlan(g, old(Snapshot()), ConcretePlan(old(TheWorld()), concrete))
      decreases Unresolved(g, resolving),
                var p := ConcretePlan(TheWorld(), concrete); 5 + if p.Wire? then |p.deps| else 0
    {
      match concrete
      case Class(ctor) =>
        r := Build(ctor, g);
      case Alias(target) =>
        RunAlias(g, Snapshot(), target);
        r := Make(target, g);
      case Factory(calls, outcome) =>
        var made := Run(calls, g);
        if made.Err? {
          return Err(made.error);
        }
        match outcome
        case Builds =>
          EmptyKwargs(Snapshot(), calls, made.value);
          r := Ok(Obj(nextId, []));
          nextId := nextId + 1;
        case Returns(o) =>
          r := Ok(o);
        case Raises =>
          r := Err(Raised);
    }

    /** The calls a factory makes on the container, in order. */
    method Run(calls: seq<TypeId>, ghost g: Graph) returns (r: Result<seq<Obj>, Error>)
      requires Describes(g, TheWorld())
      modifies this
      ensures bindings == old(bindings) && resolving == old(resolving)
      ensures (r, Snapshot()) == MakeAll(g, old(Snapshot()), calls)
      decreases Unresolved(g, resolving), 3 + |calls|
    {
      ghost var s := Snapshot();
      var made: seq<Obj> := [];
      for i := 0 to |calls|
        invariant bindings == old(bindings) && resolving == s.resolving
        invariant MakeAll(g, s, calls[..i]) == (Ok(made), Snapshot())
      {
        RunNext(g, s, calls, i, made, Snapshot());
        var one := Make(calls[i], g);
        if one.Err? {
          return Err(one.error);
        }
        made := made + [one.value];
      }
      assert calls[..|calls|] == calls;
      r := Ok(made);
    }

    method Build(ctor: Ctor, ghost g: Graph) returns (r: Result<Obj, Error>)
      requires Describes(g, TheWorld())
      modifies this
      ensures bindings == old(bindings) && resolving == old(resolving)
      ensures (r, Snapshot()) == RunPlan(g, old(Snapshot()), CtorPlan(old(TheWorld()), ctor))
      decreases Unresolved(g, resolving),
                var p := CtorPlan(TheWorld(), ctor); if p.Wire? then 4 + |p.deps| else 0
    {
      if !Inspectable(ctor) {
        return Err(ResolutionError);
      }
      ghost var w, s := TheWorld(), Snapshot();
      var kwargs, made := Arguments(ctor, g);
      if kwargs.Err? {
        return Err(kwargs.error);
      }
      CollectEnds(g, s, w, ctor, kwargs.value, made, Snapshot());
      if ctor.raises {
        return Err(Raised);
      }
      r := Ok(Obj(nextId, kwargs.value));
      nextId := nextId + 1;
    }

    /** Fill the keyword arguments, one parameter at a time. */
    method Arguments(ctor: Ctor, ghost g: Graph) returns (r: Result<seq<(string, Obj)>, Error>, ghost made: seq<Obj>)
      requires Describes(g, TheWorld())
      modifies this
      ensures bindings == old(bindings) && resolving == old(resolving)
      ensures var ws := Wiring(old(TheWorld()), ctor.params);
              if r.Ok? then Collected(g, old(Snapshot()), ws, r.value, made, Snapshot())
              else MakeAll(g, old(Snapshot()), Types(ws)) == (Err(r.error), Snapshot())
      decreases Unresolved(g, resolving), 3 + |Wiring(TheWorld(), ctor.params)|
    {
      ghost var w, s := TheWorld(), Snapshot();
      made := [];
      var kwargs: seq<(string, Obj)> := [];
      for i := 0 to |ctor.params|
        invariant TheWorld() == w && resolving == s.resolving
        invariant Collected(g, s, Wiring(w, ctor.params[..i]), kwargs, made, Snapshot())
      {
        var param := ctor.params[i];
        WiringNext(w, ctor.params, i);
        if param.annotation.None? || (param.hasDefault && param.annotation.value !in bindings) {
          continue;
        }
        CollectMakes(g, s, Wiring(w, ctor.params[..i]), kwargs, made, Snapshot(), param.name, param.annotation.value);
        var value := Make(param.annotation.value, g);
        if value.Err? {
          CollectFails(g, s, w, ctor.params, i + 1);
          return Err(value.error), made;
        }
        kwargs := kwargs + [(param.name, value.value)];
        made := made + [value.value];
      }
      assert ctor.params[..|ctor.params|] == ctor.params;
      r := Ok(kwargs);
    }
  }
}
