/**
 Runs of a container whose bindings are fixed: resolutions from the top level,
 interleaved with scopes that are entered and left in nested order. A resolution
 that raises is an event like any other, so a run may go on after it.
 */
module ContainerRuns {
  import opened Options
  import opened ContainerSpec
  import opened ContainerCycles
  import opened ContainerLifetimes

  datatype Event = Resolve(wanted: TypeId) | Enter | Exit

  function Apply(g: Graph, s: State, e: Event): State {
    match e
    case Resolve(a) => Make(g, s, a).1
    case Enter => s.(scopes := s.scopes + [map[]])
    case Exit => if |s.scopes| == 0 then s else s.(scopes := s.scopes[..|s.scopes| - 1])
  }

  /** The states of a run: before the first event, and after each one. */
  function States(g: Graph, s: State, es: seq<Event>): (ss: seq<State>)
    ensures |ss| == |es| + 1
  {
    if es == [] then [s]
    else
      var front := States(g, s, es[..|es| - 1]);
      front + [Apply(g, front[|es| - 1], es[|es| - 1])]
  }

  function ResultAt(g: Graph, s: State, es: seq<Event>, i: nat): Result<Obj, Error>
    requires i < |es| && es[i].Resolve?
  {
    Make(g, States(g, s, es)[i], es[i].wanted).0
  }

  // ------------------------------------------------------- nesting of scopes

  function Delta(e: Event): int {
    match e
    case Resolve(_) => 0
    case Enter => 1
    case Exit => -1
  }

  /** The number of open scopes before the first event, and after each one. */
  function Depths(d: int, es: seq<Event>): (ds: seq<int>)
    ensures |ds| == |es| + 1
  {
    if es == [] then [d]
    else
      var front := Depths(d, es[..|es| - 1]);
      front + [front[|es| - 1] + Delta(es[|es| - 1])]
  }

  lemma {:induction false} RunStep(g: Graph, s: State, es: seq<Event>, n: nat)
    requires n <= |es|
    ensures States(g, s, es)[0] == s && Depths(|s.scopes|, es)[0] == |s.scopes|
    ensures n > 0 ==> States(g, s, es)[n] == Apply(g, States(g, s, es)[n - 1], es[n - 1])
    ensures n > 0 ==> Depths(|s.scopes|, es)[n] == Depths(|s.scopes|, es)[n - 1] + Delta(es[n - 1])
  {
    if es != [] {
      var front := es[..|es| - 1];
      RunStep(g, s, front, if n < |es| then n else 0);
    }
  }

  ghost predicate WellNested(ds: seq<int>) {
    forall k | 0 <= k < |ds| :: 0 <= ds[k]
  }

  /** Events `i` and `j` happen directly inside one scope, which stays open in between. */
  ghost predicate SameScope(ds: seq<int>, i: nat, j: nat)
    requires i <= j < |ds|
  {
    ds[i] == ds[j] && forall k | i <= k <= j :: ds[i] <= ds[k]
  }

  // ---------------------------------------- what every run keeps, step by step

  /** All that later arguments use about one event. */
  ghost predicate Evolves(g: Graph, s: State, e: Event, s': State) {
    && Tidy(g, s) && Tidy(g, s')
    && match e
       case Resolve(_) => Grows(g, s, s')
       case Enter => s' == s.(scopes := s.scopes + [map[]])
       case Exit => |s.scopes| > 0 && s' == s.(scopes := s.scopes[..|s.scopes| - 1])
  }

  ghost predicate Evolution(g: Graph, es: seq<Event>, ss: seq<State>) {
    |ss| == |es| + 1 && Tidy(g, ss[0]) &&
    forall k, n | 0 <= k < |es| && n == k + 1 :: Evolves(g, ss[k], es[k], ss[n])
  }

  ghost predicate Levels(ds: seq<int>, ss: seq<State>) {
    |ds| == |ss| && forall k | 0 <= k < |ss| :: |ss[k].scopes| == ds[k]
  }

  lemma {:induction false} ApplyEvolves(g: Graph, s: State, e: Event)
    requires Tidy(g, s) && (e.Exit? ==> |s.scopes| > 0)
    ensures Evolves(g, s, e, Apply(g, s, e))
  {
    if e.Resolve? {
      MakeGrows(g, s, e.wanted);
    }
  }

  lemma {:induction false} PrefixEvolves(g: Graph, s: State, es: seq<Event>, n: nat)
    requires Tidy(g, s) && WellNested(Depths(|s.scopes|, es)) && n <= |es|
    ensures var s' := States(g, s, es)[n];
            Tidy(g, s') && |s'.scopes| == Depths(|s.scopes|, es)[n] && s'.resolving == s.resolving
    ensures n > 0 ==> Evolves(g, States(g, s, es)[n - 1], es[n - 1], States(g, s, es)[n])
  {
    RunStep(g, s, es, n);
    if n > 0 {
      PrefixEvolves(g, s, es, n - 1);
      ApplyEvolves(g, States(g, s, es)[n - 1], es[n - 1]);
    }
  }

  lemma {:induction false} RunEvolves(g: Graph, s: State, es: seq<Event>)
    requires Tidy(g, s) && WellNested(Depths(|s.scopes|, es))
    ensures var ss := States(g, s, es);
            Evolution(g, es, ss) && Levels(Depths(|s.scopes|, es), ss) &&
            forall k | 0 <= k <= |es| :: ss[k].resolving == s.resolving
  {
    forall n | 0 <= n <= |es|
      ensures |States(g, s, es)[n].scopes| == Depths(|s.scopes|, es)[n] && States(g, s, es)[n].resolving == s.resolving
    {
      PrefixEvolves(g, s, es, n);
    }
    forall k, n | 0 <= k < |es| && n == k + 1
      ensures Evolves(g, States(g, s, es)[k], es[k], States(g, s, es)[n])
    {
      PrefixEvolves(g, s, es, n);
    }
    PrefixEvolves(g, s, es, 0);
  }

  lemma {:induction false} RunGrows(g: Graph, es: seq<Event>, ss: seq<State>, i: nat, j: nat)
    requires Evolution(g, es, ss) && i <= j <= |es|
    ensures Extends(ss[i].singletons, ss[j].singletons) && ss[i].nextId <= ss[j].nextId && Tidy(g, ss[j])
    decreases j
  {
    if j > 0 {
      assert Evolves(g, ss[j - 1], es[j - 1], ss[j]);
    }
    if i < j {
      RunGrows(g, es, ss, i, j - 1);
    }
  }

  // ---------------------------------------------------------- scoped objects

  ghost predicate AtLevel(s: State, l: int, a: TypeId, o: Obj) {
    0 <= l < |s.scopes| && a in s.scopes[l] && s.scopes[l][a] == o
  }

  ghost predicate Gone(s: State, a: TypeId, o: Obj) {
    o.id < s.nextId && forall l | 0 <= l < |s.scopes| && a in s.scopes[l] :: s.scopes[l][a] != o
  }

  lemma {:induction false} LowerScopesStay(g: Graph, s: State, s': State, l: int)
    requires Grows(g, s, s') && 0 <= l < |s.scopes| - 1
    ensures s'.scopes[l] == s.scopes[l]
  {
    assert s'.scopes[..|s.scopes| - 1][l] == s.scopes[..|s.scopes| - 1][l];
  }

  lemma {:induction false} StepKeepsLevel(g: Graph, s: State, e: Event, s': State, l: int, a: TypeId, o: Obj)
    requires Evolves(g, s, e, s') && AtLevel(s, l, a, o) && l < |s'.scopes|
    ensures AtLevel(s', l, a, o)
  {
    if e.Resolve? && l < |s.scopes| - 1 {
      LowerScopesStay(g, s, s', l);
    }
  }

  lemma {:induction false} StepKeepsGone(g: Graph, s: State, e: Event, s': State, a: TypeId, o: Obj)
    requires Evolves(g, s, e, s') && Gone(s, a, o) && Mints(g, a)
    ensures Gone(s', a, o)
  {
    if e.Resolve? {
      forall l | 0 <= l < |s'.scopes| && a in s'.scopes[l] ensures s'.scopes[l][a] != o {
        if l < |s.scopes| - 1 {
          LowerScopesStay(g, s, s', l);
        }
      }
    }
  }

  lemma {:induction false} ClosingForgets(g: Graph, s: State, e: Event, s': State, l: int, a: TypeId, o: Obj)
    requires Evolves(g, s, e, s') && Mints(g, a) && AtLevel(s, l, a, o) && |s'.scopes| <= l
    ensures Gone(s', a, o)
  {
    assert e.Exit? && l == |s.scopes| - 1;
    var t := |s.scopes| - 1;
    assert AllocatedIn(s.scopes[t], s.nextId);
    forall l | 0 <= l < t && a in s.scopes[l] ensures s.scopes[l][a] != o {
      assert Distinct(g, s.scopes[l], s.scopes[t]);
    }
  }

  /** The scope at level `l` stays open over the states `i` to `j`. */
  ghost predicate Open(ss: seq<State>, l: int, i: nat, j: nat)
    requires i <= j < |ss|
  {
    forall k | i <= k <= j :: l < |ss[k].scopes|
  }

  lemma {:induction false} OpenScopeKeeps(
    g: Graph, es: seq<Event>, ss: seq<State>, l: int, i: nat, j: nat, a: TypeId, o: Obj)
    requires Evolution(g, es, ss) && i <= j <= |es| && AtLevel(ss[i], l, a, o) && Open(ss, l, i, j)
    ensures AtLevel(ss[j], l, a, o)
    decreases j
  {
    if i < j {
      OpenScopeKeeps(g, es, ss, l, i, j - 1, a, o);
      StepKeepsLevel(g, ss[j - 1], es[j - 1], ss[j], l, a, o);
    }
  }

  lemma {:induction false} ClosedScopeForgets(
    g: Graph, es: seq<Event>, ss: seq<State>, l: int, i: nat, j: nat, a: TypeId, o: Obj)
    requires Evolution(g, es, ss) && i <= j <= |es| && Mints(g, a) && AtLevel(ss[i], l, a, o) && !Open(ss, l, i, j)
    ensures Gone(ss[j], a, o)
    decreases j
  {
    if Open(ss, l, i, j - 1) {
      OpenScopeKeeps(g, es, ss, l, i, j - 1, a, o);
      ClosingForgets(g, ss[j - 1], es[j - 1], ss[j], l, a, o);
    } else {
      ClosedScopeForgets(g, es, ss, l, i, j - 1, a, o);
      StepKeepsGone(g, ss[j - 1], es[j - 1], ss[j], a, o);
    }
  }

  // ------------------------------------------------------------ the theorems

  ghost predicate Shared(g: Graph, ds: seq<int>, i: nat, j: nat, a: TypeId)
    requires i <= j < |ds|
  {
    match LifetimeOf(g, a)
    case Transient => false
    case Singleton => true
    case Scoped => SameScope(ds, i, j)
  }

  lemma {:induction false} KeptIsReturned(g: Graph, s: State, a: TypeId, o: Obj)
    requires Tidy(g, s) && s.resolving == [] && Kept(g, s, a, o) && !LifetimeOf(g, a).Transient?
    ensures Make(g, s, a).0 == Ok(o)
  {
  }

  lemma {:induction false} OthersDiffer(g: Graph, s: State, a: TypeId, o: Obj)
    requires Tidy(g, s) && s.resolving == [] && Mints(g, a) && o.id < s.nextId
    requires !LifetimeOf(g, a).Singleton? && (InTop(s, a) ==> Top(s)[a] != o)
    ensures Make(g, s, a).0 != Ok(o)
  {
    MakeGrows(g, s, a);
  }

  /** After a success, the instance stays where it was kept as long as it is shared ... */
  lemma {:induction false} StillKept(
    g: Graph, ds: seq<int>, es: seq<Event>, ss: seq<State>, i: nat, j: nat, a: TypeId, o: Obj)
    requires Evolution(g, es, ss) && Levels(ds, ss)
    requires i < j <= |es| && es[i] == Resolve(a) && Kept(g, ss[i + 1], a, o)
    requires Shared(g, ds, i, j, a)
    ensures Kept(g, ss[j], a, o)
  {
    if LifetimeOf(g, a).Singleton? {
      RunGrows(g, es, ss, i + 1, j);
    } else {
      OpenScopeKeeps(g, es, ss, ds[i] - 1, i + 1, j, a, o);
    }
  }

  /** ... and is in no reach of `a` when it is not. */
  lemma {:induction false} NoLongerReachable(
    g: Graph, ds: seq<int>, es: seq<Event>, ss: seq<State>, i: nat, j: nat, a: TypeId, o: Obj)
    requires Evolution(g, es, ss) && Levels(ds, ss)
    requires i < j <= |es| && es[i] == Resolve(a) && Kept(g, ss[i + 1], a, o) && Mints(g, a)
    requires LifetimeOf(g, a).Scoped? && !SameScope(ds, i, j)
    ensures InTop(ss[j], a) ==> Top(ss[j])[a] != o
  {
    var l := ds[i] - 1;
    if Open(ss, l, i + 1, j) {
      OpenScopeKeeps(g, es, ss, l, i + 1, j, a, o);
      forall k | i <= k <= j ensures ds[i] <= ds[k] {
        if k > i { assert l < |ss[k].scopes|; }
      }
      RunGrows(g, es, ss, j, j);
      assert Distinct(g, ss[j].scopes[l], ss[j].scopes[|ss[j].scopes| - 1]);
    } else {
      ClosedScopeForgets(g, es, ss, l, i + 1, j, a, o);
    }
  }

  lemma {:induction false} SharedIsReturned(g: Graph, s: State, es: seq<Event>, i: nat, j: nat, a: TypeId, o: Obj)
    requires Tidy(g, s) && s.resolving == [] && WellNested(Depths(|s.scopes|, es))
    requires i < j <= |es| && es[i] == Resolve(a) && Kept(g, States(g, s, es)[i + 1], a, o)
    requires Shared(g, Depths(|s.scopes|, es), i, j, a)
    ensures Make(g, States(g, s, es)[j], a).0 == Ok(o)
  {
    PrefixEvolves(g, s, es, j);
    assert Kept(g, States(g, s, es)[j], a, o) by {
      RunEvolves(g, s, es);
      StillKept(g, Depths(|s.scopes|, es), es, States(g, s, es), i, j, a, o);
    }
    KeptIsReturned(g, States(g, s, es)[j], a, o);
  }

  lemma {:induction false} UnsharedIsAbsent(
    g: Graph, ds: seq<int>, es: seq<Event>, ss: seq<State>, i: nat, j: nat, a: TypeId, o: Obj)
    requires Evolution(g, es, ss) && Levels(ds, ss) && Mints(g, a)
    requires i < j <= |es| && es[i] == Resolve(a) && Kept(g, ss[i + 1], a, o) && o.id < ss[i + 1].nextId
    requires !Shared(g, ds, i, j, a)
    ensures o.id < ss[j].nextId && (InTop(ss[j], a) ==> Top(ss[j])[a] != o)
  {
    RunGrows(g, es, ss, i + 1, j);
    if LifetimeOf(g, a).Scoped? {
      NoLongerReachable(g, ds, es, ss, i, j, a, o);
    }
  }

  lemma {:induction false} UnsharedDiffers(g: Graph, s: State, es: seq<Event>, i: nat, j: nat, a: TypeId, o: Obj)
    requires Tidy(g, s) && s.resolving == [] && WellNested(Depths(|s.scopes|, es)) && Mints(g, a)
    requires i < j <= |es| && es[i] == Resolve(a)
    requires Kept(g, States(g, s, es)[i + 1], a, o) && o.id < States(g, s, es)[i + 1].nextId
    requires !Shared(g, Depths(|s.scopes|, es), i, j, a)
    ensures Make(g, States(g, s, es)[j], a).0 != Ok(o)
  {
    PrefixEvolves(g, s, es, j);
    var s' := States(g, s, es)[j];
    assert o.id < s'.nextId && (InTop(s', a) ==> Top(s')[a] != o) by {
      RunEvolves(g, s, es);
      UnsharedIsAbsent(g, Depths(|s.scopes|, es), es, States(g, s, es), i, j, a, o);
    }
    OthersDiffer(g, s', a, o);
  }

  /** After a successful resolution at event `i`. */
  lemma {:induction false} Resolved(g: Graph, s: State, es: seq<Event>, i: nat, a: TypeId, o: Obj)
    requires Tidy(g, s) && s.resolving == [] && WellNested(Depths(|s.scopes|, es))
    requires i < |es| && es[i] == Resolve(a) && ResultAt(g, s, es, i) == Ok(o)
    ensures Kept(g, States(g, s, es)[i + 1], a, o) && o.id < States(g, s, es)[i + 1].nextId
  {
    PrefixEvolves(g, s, es, i);
    MakeGrows(g, States(g, s, es)[i], a);
    RunStep(g, s, es, i + 1);
  }

  /** Once resolved, a singleton, or a scoped type within its scope, is handed
      out again: the later resolution succeeds with the very same instance. */
  lemma {:induction false} SharedInstanceIsReused(g: Graph, s: State, es: seq<Event>, i: nat, j: nat, a: TypeId)
    requires Tidy(g, s) && s.resolving == [] && WellNested(Depths(|s.scopes|, es))
    requires i < j < |es| && es[i] == Resolve(a) && es[j] == Resolve(a) && ResultAt(g, s, es, i).Ok?
    requires Shared(g, Depths(|s.scopes|, es), i, j, a)
    ensures ResultAt(g, s, es, j) == ResultAt(g, s, es, i)
  {
    var o := ResultAt(g, s, es, i).value;
    Resolved(g, s, es, i, a, o);
    SharedIsReturned(g, s, es, i, j, a, o);
  }

  /** Two resolutions of one minted type give the same instance exactly when its
      lifetime says so: always for a singleton, in the same scope for a scoped
      type, never for a transient one. */
  lemma {:induction false} InstancesFollowLifetimes(g: Graph, s: State, es: seq<Event>, i: nat, j: nat, a: TypeId)
    requires Tidy(g, s) && s.resolving == [] && WellNested(Depths(|s.scopes|, es)) && Mints(g, a)
    requires i < j < |es| && es[i] == Resolve(a) && es[j] == Resolve(a)
    requires ResultAt(g, s, es, i).Ok? && ResultAt(g, s, es, j).Ok?
    ensures ResultAt(g, s, es, i).value == ResultAt(g, s, es, j).value <==>
              Shared(g, Depths(|s.scopes|, es), i, j, a)
  {
    var o := ResultAt(g, s, es, i).value;
    Resolved(g, s, es, i, a, o);
    if Shared(g, Depths(|s.scopes|, es), i, j, a) {
      SharedIsReturned(g, s, es, i, j, a, o);
    } else {
      UnsharedDiffers(g, s, es, i, j, a, o);
    }
  }
}
