/** What binding does to a container: which registrations keep its caches in line. */
module ContainerBinding {
  import opened Arithmetic
  import opened Options
  import opened ContainerSpec
  import opened ContainerLifetimes
  import opened ContainerRuns

  /** An object made elsewhere has an identity of its own: the identities that the
      container gives out later come after it. */
  function Registered(s: State, c: Concrete): State {
    if c.Factory? && c.outcome.Returns? then s.(nextId := Max(s.nextId, c.outcome.obj.id + 1)) else s
  }

  function Bound(w: World, a: TypeId, b: Binding): World {
    w.(bindings := w.bindings[a := b])
  }

  /** A new binding of `a` agrees with what the caches hold: a cached singleton stays
      one, an instance in an open scope stays scoped, and open scopes that hold `a` do
      not share an instance of what is now built anew. */
  ghost predicate FitsCaches(g: Graph, s: State, a: TypeId) {
    && (a in s.singletons ==> LifetimeOf(g, a).Singleton?)
    && (forall l | 0 <= l < |s.scopes| && a in s.scopes[l] :: LifetimeOf(g, a).Scoped?)
    && (Mints(g, a) ==>
          forall l, m | 0 <= l < m < |s.scopes| && a in s.scopes[l] && a in s.scopes[m] ::
            s.scopes[l][a] != s.scopes[m][a])
  }

  /** A binding leaves every other type's lifetime and outcome alone. */
  ghost predicate SameOutcome(g: Graph, g': Graph, x: TypeId) {
    && (x in g <==> x in g') && LifetimeOf(g', x) == LifetimeOf(g, x)
    && PlanOf(g', x).Wire? == PlanOf(g, x).Wire?
    && (PlanOf(g, x).Wire? ==>
          PlanOf(g', x).finish.New? == PlanOf(g, x).finish.New? &&
          (PlanOf(g, x).finish.Give? ==> PlanOf(g', x).finish == PlanOf(g, x).finish) &&
          (PlanOf(g', x).finish.Give? ==> PlanOf(g', x).finish == PlanOf(g, x).finish))
  }

  lemma {:induction false} OthersKeepOutcome(w: World, a: TypeId, b: Binding, x: TypeId)
    requires x != a
    ensures SameOutcome(GraphOf(w), GraphOf(Bound(w, a, b)), x)
  {
    GraphDescribes(w);
    GraphDescribes(Bound(w, a, b));
    assert Linked(GraphOf(w), w, x) && Linked(GraphOf(Bound(w, a, b)), Bound(w, a, b), x);
  }

  lemma {:induction false} TidyFits(g: Graph, s: State, a: TypeId)
    requires Tidy(g, s)
    ensures FitsCaches(g, s, a)
  {
    forall l, m | 0 <= l < m < |s.scopes| && a in s.scopes[l] && a in s.scopes[m] && Mints(g, a)
      ensures s.scopes[l][a] != s.scopes[m][a]
    {
      assert Distinct(g, s.scopes[l], s.scopes[m]);
    }
    forall l | 0 <= l < |s.scopes| && a in s.scopes[l] ensures LifetimeOf(g, a).Scoped? {
      assert KeysHave(g, s.scopes[l], Scoped);
    }
  }

  lemma {:induction false} AllocationsStay(g: Graph, g': Graph, m: nat, n: nat, a: TypeId)
    requires GivenAllocated(g, m) && (forall x | x != a :: SameOutcome(g, g', x)) && m <= n
    requires a in g' && g'[a].plan.Wire? && g'[a].plan.finish.Give? ==> g'[a].plan.finish.obj.id < n
    ensures GivenAllocated(g', n)
  {
    forall x | x in g' && g'[x].plan.Wire? && g'[x].plan.finish.Give? ensures g'[x].plan.finish.obj.id < n {
      assert x != a ==> SameOutcome(g, g', x);
    }
  }

  lemma {:induction false} ScopesStay(g: Graph, g': Graph, s: State, s': State, a: TypeId)
    requires Tidy(g, s) && (forall x | x != a :: SameOutcome(g, g', x)) && FitsCaches(g', s', a)
    requires s'.scopes == s.scopes && s.nextId <= s'.nextId
    ensures forall l | 0 <= l < |s'.scopes| ::
              KeysHave(g', s'.scopes[l], Scoped) && AllocatedIn(s'.scopes[l], s'.nextId)
    ensures forall l, m | 0 <= l < m < |s'.scopes| :: Distinct(g', s'.scopes[l], s'.scopes[m])
  {
    forall l | 0 <= l < |s'.scopes|
      ensures KeysHave(g', s'.scopes[l], Scoped) && AllocatedIn(s'.scopes[l], s'.nextId)
    {
      assert KeysHave(g, s.scopes[l], Scoped) && AllocatedIn(s.scopes[l], s.nextId);
      assert forall x | x in s.scopes[l] && x != a :: SameOutcome(g, g', x);
    }
    forall l, m | 0 <= l < m < |s'.scopes| ensures Distinct(g', s'.scopes[l], s'.scopes[m]) {
      assert Distinct(g, s.scopes[l], s.scopes[m]);
      assert forall x | x in s.scopes[l] && x != a :: SameOutcome(g, g', x);
    }
  }

  lemma {:induction false} OthersStayTidy(g: Graph, g': Graph, s: State, s': State, a: TypeId)
    requires Tidy(g, s) && (forall x | x != a :: SameOutcome(g, g', x))
    requires s'.scopes == s.scopes && s.nextId <= s'.nextId
    requires s'.singletons - {a} == s.singletons - {a} && AllocatedIn(s'.singletons, s'.nextId)
    requires a in g' && g'[a].plan.Wire? && g'[a].plan.finish.Give? ==> g'[a].plan.finish.obj.id < s'.nextId
    ensures Tidy(g', s') <==> FitsCaches(g', s', a)
  {
    if FitsCaches(g', s', a) {
      AllocationsStay(g, g', s.nextId, s'.nextId, a);
      ScopesStay(g, g', s, s', a);
      forall x | x in s'.singletons ensures LifetimeOf(g', x) == Singleton {
        assert x != a ==> SameOutcome(g, g', x) && x in s'.singletons - {a};
      }
    } else if Tidy(g', s') {
      TidyFits(g', s', a);
      assert false;
    }
  }

  /** A new container is in order. */
  lemma {:induction false} InitialIsTidy(classes: map<TypeId, ClassInfo>)
    ensures Tidy(GraphOf(World(classes, map[])), State(map[], [], [], 0))
  {
  }

  lemma {:induction false} OthersAllKeep(w: World, a: TypeId, b: Binding)
    ensures forall x | x != a :: SameOutcome(GraphOf(w), GraphOf(Bound(w, a, b)), x)
    ensures var g' := GraphOf(Bound(w, a, b));
            a in g' && g'[a] == Node(ConcretePlan(Bound(w, a, b), b.concrete), b.lifetime)
  {
    forall x | x != a ensures SameOutcome(GraphOf(w), GraphOf(Bound(w, a, b)), x) {
      OthersKeepOutcome(w, a, b, x);
    }
    GraphDescribes(Bound(w, a, b));
    assert Linked(GraphOf(Bound(w, a, b)), Bound(w, a, b), a);
  }

  /** Binding a type keeps the container in order exactly when the binding fits what the
      caches hold of it; nothing is dropped from them. */
  lemma {:induction false} BindKeepsTidyIff(w: World, s: State, a: TypeId, b: Binding)
    requires Tidy(GraphOf(w), s)
    ensures var g', s' := GraphOf(Bound(w, a, b)), Registered(s, b.concrete);
            Tidy(g', s') <==> FitsCaches(g', s', a)
  {
    OthersAllKeep(w, a, b);
    OthersStayTidy(GraphOf(w), GraphOf(Bound(w, a, b)), s, Registered(s, b.concrete), a);
  }

  /** Binding as a singleton drops the cached one, and keeps the container in order
      exactly when no open scope holds the type. */
  lemma {:induction false} BindSingletonKeepsTidyIff(w: World, s: State, a: TypeId, c: Concrete)
    requires Tidy(GraphOf(w), s)
    ensures var g' := GraphOf(Bound(w, a, Binding(c, Singleton)));
            var s' := Registered(s, c).(singletons := s.singletons - {a});
            Tidy(g', s') <==> forall l | 0 <= l < |s.scopes| :: a !in s.scopes[l]
  {
    var b := Binding(c, Singleton);
    var s' := Registered(s, c).(singletons := s.singletons - {a});
    OthersAllKeep(w, a, b);
    assert s'.singletons - {a} == s.singletons - {a};
    OthersStayTidy(GraphOf(w), GraphOf(Bound(w, a, b)), s, s', a);
  }

  /** Registering an instance keeps the container in order exactly when no open scope
      holds the type; so does registering it in a new container. */
  lemma {:induction false} InstanceKeepsTidyIff(w: World, s: State, a: TypeId, o: Obj)
    requires Tidy(GraphOf(w), s)
    ensures var c := Factory([], Returns(o));
            var g' := GraphOf(Bound(w, a, Binding(c, Singleton)));
            var s' := Registered(s, c).(singletons := s.singletons[a := o]);
            Tidy(g', s') <==> forall l | 0 <= l < |s.scopes| :: a !in s.scopes[l]
  {
    var c := Factory([], Returns(o));
    var s' := Registered(s, c).(singletons := s.singletons[a := o]);
    OthersAllKeep(w, a, Binding(c, Singleton));
    assert s'.singletons - {a} == s.singletons - {a};
    OthersStayTidy(GraphOf(w), GraphOf(Bound(w, a, Binding(c, Singleton))), s, s', a);
  }

  /** Resolutions and scopes keep the container in order. */
  lemma {:induction false} MakeKeepsTidy(w: World, g: Graph, s: State, a: TypeId)
    requires Describes(g, w) && Tidy(GraphOf(w), s)
    ensures g == GraphOf(w) && Tidy(GraphOf(w), Make(g, s, a).1)
  {
    GraphDescribes(w);
    forall x ensures x in g <==> x in GraphOf(w) {
      assert Linked(g, w, x) && Linked(GraphOf(w), w, x);
    }
    forall x | x in g ensures g[x] == GraphOf(w)[x] {
      assert Linked(g, w, x) && Linked(GraphOf(w), w, x);
    }
    assert g == GraphOf(w);
    MakeGrows(g, s, a);
  }

  // ------------------------------------------- what a program registers at first

  datatype Registration =
    | Bind(wanted: TypeId, binding: Binding)
    | BindSingleton(wanted: TypeId, concrete: Concrete)
    | Instance(wanted: TypeId, obj: Obj)

  function BindingOf(r: Registration): Binding {
    match r
    case Bind(_, b) => b
    case BindSingleton(_, c) => Binding(c, Singleton)
    case Instance(_, o) => Binding(Factory([], Returns(o)), Singleton)
  }

  function Register(s: State, r: Registration): State {
    var s' := Registered(s, BindingOf(r).concrete);
    match r
    case Bind(_, _) => s'
    case BindSingleton(a, _) => s'.(singletons := s.singletons - {a})
    case Instance(a, o) => s'.(singletons := s.singletons[a := o])
  }

  /** A container of these classes after the registrations, in order. */
  function Boot(classes: map<TypeId, ClassInfo>, rs: seq<Registration>): (World, State) {
    if rs == [] then (World(classes, map[]), State(map[], [], [], 0))
    else
      var (w, s) := Boot(classes, rs[..|rs| - 1]);
      var r := rs[|rs| - 1];
      (Bound(w, r.wanted, BindingOf(r)), Register(s, r))
  }

  lemma {:induction false} BootAllocates(classes: map<TypeId, ClassInfo>, rs: seq<Registration>)
    ensures var (w, s) := Boot(classes, rs);
            && s.scopes == [] && s.resolving == []
            && GivenAllocated(GraphOf(w), s.nextId) && AllocatedIn(s.singletons, s.nextId)
  {
    if rs != [] {
      var (w, s) := Boot(classes, rs[..|rs| - 1]);
      var r := rs[|rs| - 1];
      BootAllocates(classes, rs[..|rs| - 1]);
      OthersAllKeep(w, r.wanted, BindingOf(r));
      AllocationsStay(GraphOf(w), GraphOf(Bound(w, r.wanted, BindingOf(r))), s.nextId, Register(s, r).nextId, r.wanted);
    }
  }

  /** After any registrations the container is in order exactly when no registered
      instance was bound again under another lifetime since. */
  lemma {:induction false} BootIsTidyIff(classes: map<TypeId, ClassInfo>, rs: seq<Registration>)
    ensures var (w, s) := Boot(classes, rs);
            Tidy(GraphOf(w), s) <==> forall a | a in s.singletons :: LifetimeOf(GraphOf(w), a).Singleton?
    ensures Boot(classes, rs).1.scopes == [] && Boot(classes, rs).1.resolving == []
  {
    BootAllocates(classes, rs);
  }

  /** Registration `i` is of `a`, and the last one that is. */
  ghost predicate LastOf(rs: seq<Registration>, a: TypeId, i: nat) {
    i < |rs| && rs[i].wanted == a && forall j | i < j < |rs| :: rs[j].wanted != a
  }

  /** Registration `i` put an instance of `a` into the cache, and none since dropped or
      replaced it. */
  ghost predicate CachedBy(rs: seq<Registration>, a: TypeId, i: nat) {
    && i < |rs| && rs[i].Instance? && rs[i].wanted == a
    && forall j | i < j < |rs| && rs[j].wanted == a :: rs[j].Bind?
  }

  lemma {:induction false} LastOfPrefix(rs: seq<Registration>, a: TypeId, i: nat)
    requires rs != []
    ensures var n := |rs| - 1;
            LastOf(rs, a, i) <==> if rs[n].wanted == a then i == n else LastOf(rs[..n], a, i)
  {
  }

  /** After the registrations a type is bound exactly if it was registered, and as it was
      registered last. */
  lemma {:induction false} BootBinds(classes: map<TypeId, ClassInfo>, rs: seq<Registration>, a: TypeId)
    ensures a in Boot(classes, rs).0.bindings <==> exists i: nat :: LastOf(rs, a, i)
    ensures forall i: nat | LastOf(rs, a, i) :: Boot(classes, rs).0.bindings[a] == BindingOf(rs[i])
  {
    if rs != [] {
      var n := |rs| - 1;
      BootBinds(classes, rs[..n], a);
      forall i: nat ensures LastOf(rs, a, i) <==> if rs[n].wanted == a then i == n else LastOf(rs[..n], a, i) {
        LastOfPrefix(rs, a, i);
      }
      assert rs[n].wanted == a ==> LastOf(rs, a, n);
    }
  }

  lemma {:induction false} CachedByPrefix(rs: seq<Registration>, a: TypeId, i: nat)
    requires rs != []
    ensures var n := |rs| - 1;
            CachedBy(rs, a, i) <==>
              if rs[n].wanted == a && !rs[n].Bind? then i == n && rs[n].Instance? else CachedBy(rs[..n], a, i)
  {
  }

  /** A type is cached exactly if an instance was registered that no later instance
      replaced and no later binding as a singleton dropped: that instance. */
  lemma {:induction false} BootCaches(classes: map<TypeId, ClassInfo>, rs: seq<Registration>, a: TypeId)
    ensures a in Boot(classes, rs).1.singletons <==> exists i: nat :: CachedBy(rs, a, i)
    ensures forall i: nat | CachedBy(rs, a, i) :: Boot(classes, rs).1.singletons[a] == rs[i].obj
  {
    if rs != [] {
      var n := |rs| - 1;
      BootCaches(classes, rs[..n], a);
      forall i: nat
        ensures CachedBy(rs, a, i) <==>
                  if rs[n].wanted == a && !rs[n].Bind? then i == n && rs[n].Instance? else CachedBy(rs[..n], a, i)
      {
        CachedByPrefix(rs, a, i);
      }
      assert rs[n].wanted == a && rs[n].Instance? ==> CachedBy(rs, a, n);
    }
  }

  /** Lifetimes from a new container on: after registrations that leave it in order, two
      successful resolutions of a type built anew, with any resolutions and nested scopes
      around them, give the same instance exactly when its lifetime says so. */
  lemma {:induction false} ProgramsFollowLifetimes(
    classes: map<TypeId, ClassInfo>, rs: seq<Registration>, es: seq<Event>, i: nat, j: nat, a: TypeId)
    requires var (w, s) := Boot(classes, rs);
             (forall x | x in s.singletons :: LifetimeOf(GraphOf(w), x).Singleton?) && Mints(GraphOf(w), a)
    requires WellNested(Depths(0, es)) && i < j < |es| && es[i] == Resolve(a) && es[j] == Resolve(a)
    requires var (w, s) := Boot(classes, rs);
             ResultAt(GraphOf(w), s, es, i).Ok? && ResultAt(GraphOf(w), s, es, j).Ok?
    ensures var (w, s) := Boot(classes, rs);
            ResultAt(GraphOf(w), s, es, i) == ResultAt(GraphOf(w), s, es, j) <==>
              Shared(GraphOf(w), Depths(0, es), i, j, a)
  {
    var (w, s) := Boot(classes, rs);
    BootIsTidyIff(classes, rs);
    InstancesFollowLifetimes(GraphOf(w), s, es, i, j, a);
  }
}
