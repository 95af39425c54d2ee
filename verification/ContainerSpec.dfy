/**
 What the container computes, as functions on values: the dependency graph that
 the bindings and constructors describe, and one resolution as a state
 transformer over the singleton cache, the scope stack and the resolution stack.
 */
module ContainerSpec {
  import opened Options

  type TypeId = nat

  /** Identity of an object is its `id`; `kwargs` is what its constructor received. */
  datatype Obj = Obj(id: nat, kwargs: seq<(string, Obj)>)

  datatype Lifetime = Transient | Singleton | Scoped

  datatype Param = Param(name: string, annotation: Option<TypeId>, hasDefault: bool)

  datatype Ctor = Ctor(params: seq<Param>, variadic: bool, raises: bool)

  datatype ClassKind = Plain | Protocol | Abstract

  datatype ClassInfo = ClassInfo(kind: ClassKind, ctor: Ctor)

  datatype Outcome = Builds | Returns(obj: Obj) | Raises

  /** A bound class, a factory that makes some types in order and then finishes,
      or a factory that hands back what the container makes for another type. */
  datatype Concrete =
    | Class(ctor: Ctor)
    | Factory(calls: seq<TypeId>, outcome: Outcome)
    | Alias(target: TypeId)

  datatype Binding = Binding(concrete: Concrete, lifetime: Lifetime)

  datatype World = World(classes: map<TypeId, ClassInfo>, bindings: map<TypeId, Binding>)

  datatype Error =
    | CircularDependency(chain: seq<TypeId>)
    | BindingError(wanted: TypeId)
    | ResolutionError
    | NoActiveScope(wanted: TypeId)
    | Raised

  datatype State = State(
    singletons: map<TypeId, Obj>,
    scopes: seq<map<TypeId, Obj>>,
    resolving: seq<TypeId>,
    nextId: nat)

  // ------------------------------------------------------------- the graph

  predicate Inspectable(c: Ctor) {
    !c.variadic && forall p | p in c.params :: p.annotation.Some? || p.hasDefault
  }

  /** The constructor rules: untyped parameters and typed, defaulted, unbound
      ones are left to the constructor; every other one is made. */
  predicate Wired(w: World, p: Param) {
    p.annotation.Some? && (p.hasDefault ==> p.annotation.value in w.bindings)
  }

  /** The name and type of each constructor argument that is made, in order. */
  function Wiring(w: World, ps: seq<Param>): seq<(string, TypeId)> {
    if ps == [] then []
    else (if Wired(w, ps[0]) then [(ps[0].name, ps[0].annotation.value)] else []) + Wiring(w, ps[1..])
  }

  function Names(ws: seq<(string, TypeId)>): (r: seq<string>)
    ensures |r| == |ws|
  {
    seq(|ws|, i requires 0 <= i < |ws| => ws[i].0)
  }

  function Types(ws: seq<(string, TypeId)>): (r: seq<TypeId>)
    ensures |r| == |ws|
  {
    seq(|ws|, i requires 0 <= i < |ws| => ws[i].1)
  }

  /** How a type is produced: refused outright, or after its dependencies are made. */
  datatype Finish = New(names: seq<string>) | Give(obj: Obj) | Forward | Fail

  datatype Steps = Refuse(error: Error) | Wire(deps: seq<TypeId>, finish: Finish)

  predicate ValidSteps(p: Steps) {
    match p
    case Refuse(e) => !e.CircularDependency?
    case Wire(deps, New(names)) => |names| <= |deps|
    case Wire(deps, Forward) => deps != []
    case Wire(_, _) => true
  }

  type Plan = p: Steps | ValidSteps(p) witness Refuse(ResolutionError)

  function CtorPlan(w: World, c: Ctor): (p: Plan)
  {
    if !Inspectable(c) then Refuse(ResolutionError)
    else
      var wired := Wiring(w, c.params);
      Wire(Types(wired), if c.raises then Fail else New(Names(wired)))
  }

  function ConcretePlan(w: World, c: Concrete): (p: Plan)
  {
    match c
    case Class(ctor) => CtorPlan(w, ctor)
    case Factory(calls, Builds) => Wire(calls, New([]))
    case Factory(calls, Returns(o)) => Wire(calls, Give(o))
    case Factory(calls, Raises) => Wire(calls, Fail)
    case Alias(t) => Wire([t], Forward)
  }

  function AutoPlan(w: World, a: TypeId): (p: Plan) {
    if a !in w.classes || !w.classes[a].kind.Plain? then Refuse(BindingError(a))
    else CtorPlan(w, w.classes[a].ctor)
  }

  datatype Node = Node(plan: Plan, lifetime: Lifetime)

  /** What the bindings and classes amount to: a plan and a lifetime per type. */
  type Graph = map<TypeId, Node>

  function NodeOf(w: World, a: TypeId): Node {
    if a in w.bindings then Node(ConcretePlan(w, w.bindings[a].concrete), w.bindings[a].lifetime)
    else Node(AutoPlan(w, a), Transient)
  }

  function GraphOf(w: World): Graph {
    map a | a in w.bindings.Keys + w.classes.Keys :: NodeOf(w, a)
  }

  /** The graph has a node for exactly the types that are bound or are classes. */
  ghost predicate Linked(g: Graph, w: World, a: TypeId) {
    (a in g <==> a in w.bindings || a in w.classes) && (a in g ==> g[a] == NodeOf(w, a))
  }

  ghost predicate Describes(g: Graph, w: World) {
    forall a :: Linked(g, w, a)
  }

  lemma {:induction false} GraphDescribes(w: World)
    ensures Describes(GraphOf(w), w)
  {
  }

  /** A type without a node is neither bound nor a class. */
  function PlanOf(g: Graph, a: TypeId): Plan {
    if a in g then g[a].plan else Refuse(BindingError(a))
  }

  function LifetimeOf(g: Graph, a: TypeId): Lifetime {
    if a in g then g[a].lifetime else Transient
  }

  /** The types that resolving `a` asks the container for, in order. */
  function Deps(g: Graph, a: TypeId): seq<TypeId> {
    var p := PlanOf(g, a);
    if p.Wire? then p.deps else []
  }

  function Elems(s: seq<TypeId>): set<TypeId> {
    set x | x in s
  }

  function Unresolved(g: Graph, resolving: seq<TypeId>): nat {
    |g.Keys - Elems(resolving)|
  }

  lemma {:induction false} PushShrinks(g: Graph, r: seq<TypeId>, a: TypeId)
    requires a in g && a !in r
    ensures Unresolved(g, r + [a]) < Unresolved(g, r)
  {
    assert g.Keys - Elems(r + [a]) == g.Keys - Elems(r) - {a};
  }

  // ------------------------------------------------------------ resolution

  predicate InTop(s: State, a: TypeId) {
    |s.scopes| > 0 && a in s.scopes[|s.scopes| - 1]
  }

  function Top(s: State): map<TypeId, Obj>
    requires |s.scopes| > 0
  {
    s.scopes[|s.scopes| - 1]
  }

  /** Keep a finished instance where its lifetime says. */
  function Store(g: Graph, s: State, a: TypeId, o: Obj): (Result<Obj, Error>, State) {
    match LifetimeOf(g, a)
    case Transient => (Ok(o), s)
    case Singleton => (Ok(o), s.(singletons := s.singletons[a := o]))
    case Scoped =>
      if |s.scopes| == 0 then (Err(NoActiveScope(a)), s)
      else (Ok(o), s.(scopes := s.scopes[|s.scopes| - 1 := Top(s)[a := o]]))
  }

  /** The end of the guarded block: keep a finished instance, then unwind the
      resolution stack whether or not there is one. */
  function Settle(g: Graph, built: (Result<Obj, Error>, State), a: TypeId, resolving: seq<TypeId>):
    (Result<Obj, Error>, State)
  {
    var kept := if built.0.Ok? then Store(g, built.1, a, built.0.value) else built;
    (kept.0, kept.1.(resolving := resolving))
  }

  function FinishPlan(s: State, p: Plan, made: seq<Obj>): (Result<Obj, Error>, State)
    requires p.Wire? && |made| == |p.deps|
  {
    match p.finish
    case New(names) =>
      (Ok(Obj(s.nextId, seq(|names|, i requires 0 <= i < |names| => (names[i], made[i])))),
       s.(nextId := s.nextId + 1))
    case Give(o) => (Ok(o), s)
    case Forward => (Ok(made[|made| - 1]), s)
    case Fail => (Err(Raised), s)
  }

  function Make(g: Graph, s: State, a: TypeId): (r: (Result<Obj, Error>, State))
    ensures r.1.resolving == s.resolving && |r.1.scopes| == |s.scopes|
    decreases Unresolved(g, s.resolving), 1
  {
    if a in s.resolving then (Err(CircularDependency(s.resolving + [a])), s)
    else if a in s.singletons then (Ok(s.singletons[a]), s)
    else if InTop(s, a) then (Ok(Top(s)[a]), s)
    else if a !in g then (Err(BindingError(a)), s)
    else
      PushShrinks(g, s.resolving, a);
      Settle(g, RunPlan(g, s.(resolving := s.resolving + [a]), PlanOf(g, a)), a, s.resolving)
  }

  function RunPlan(g: Graph, s: State, p: Plan): (r: (Result<Obj, Error>, State))
    ensures r.1.resolving == s.resolving && |r.1.scopes| == |s.scopes|
    decreases Unresolved(g, s.resolving), if p.Wire? then 3 + |p.deps| else 0
  {
    if p.Refuse? then (Err(p.error), s)
    else
      var (made, s2) := MakeAll(g, s, p.deps);
      if made.Err? then (Err(made.error), s2) else FinishPlan(s2, p, made.value)
  }

  function MakeAll(g: Graph, s: State, deps: seq<TypeId>): (r: (Result<seq<Obj>, Error>, State))
    ensures r.1.resolving == s.resolving && |r.1.scopes| == |s.scopes|
    ensures r.0.Ok? ==> |r.0.value| == |deps|
    decreases Unresolved(g, s.resolving), 2 + |deps|
  {
    if deps == [] then (Ok([]), s)
    else
      var (first, s1) := Make(g, s, deps[0]);
      if first.Err? then (Err(first.error), s1)
      else
        var (rest, s2) := MakeAll(g, s1, deps[1..]);
        if rest.Err? then (rest, s2) else (Ok([first.value] + rest.value), s2)
  }
}
