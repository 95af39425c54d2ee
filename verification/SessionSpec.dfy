/** One session across requests: what a request does to the store, and what lasts. */
module SessionSpec {
  import opened Options

  type Id = nat

  datatype Any = Atom(v: int) | Dict(entries: map<string, Any>)

  type Data = map<string, Any>

  const NEW := "_flash:new"
  const OLD := "_flash:old"

  // --------------------------------------------------------------- the handle

  datatype Handle = Handle(id: Id, data: Data, dirty: bool, destroyed: bool, regeneratedFrom: Option<Id>)

  datatype Op =
    | Put(key: string, value: Any)
    | Forget(key: string)
    | Flash(key: string, value: Any)
    | Regenerate(newId: Id)
    | Destroy

  /** A dictionary stored under `key`; anything else reads as an empty one. */
  function Bag(data: Data, key: string): Data {
    if key in data && data[key].Dict? then data[key].entries else map[]
  }

  /** Opening rotates the flash bag: what the previous request flashed becomes old. */
  function Open(id: Id, data: Data): Handle {
    if NEW in data && data[NEW].Dict? then Handle(id, (data - {NEW})[OLD := data[NEW]], true, false, None)
    else Handle(id, data - {NEW, OLD}, false, false, None)
  }

  function Get(h: Handle, key: string): Option<Any> {
    if key in h.data then Some(h.data[key])
    else if key in Bag(h.data, OLD) then Some(Bag(h.data, OLD)[key])
    else None
  }

  predicate Has(h: Handle, key: string) {
    key in h.data || key in Bag(h.data, OLD)
  }

  predicate FlashPrefixed(key: string) {
    "_flash:" <= key
  }

  function All(h: Handle): Data {
    (map k | k in h.data && !FlashPrefixed(k) :: h.data[k]) + Bag(h.data, OLD)
  }

  function Apply(h: Handle, op: Op): Handle {
    match op
    case Put(k, v) => h.(data := h.data[k := v], dirty := true)
    case Forget(k) => if k in h.data then h.(data := h.data - {k}, dirty := true) else h
    case Flash(k, v) => h.(data := h.data[NEW := Dict(Bag(h.data, NEW)[k := v])], dirty := true)
    case Regenerate(newId) => h.(regeneratedFrom := Some(h.id), id := newId, dirty := true)
    case Destroy => h.(destroyed := true, dirty := true, data := map[])
  }

  function Run(h: Handle, ops: seq<Op>): Handle {
    if ops == [] then h else Apply(Run(h, ops[..|ops| - 1]), ops[|ops| - 1])
  }

  function Payload(h: Handle): Data {
    h.data - {OLD}
  }

  // -------------------------------------------------------------- the request

  type Store = map<Id, Data>

  /** The store, and the cookie the client holds. */
  datatype World = World(store: Store, cookie: Option<Id>)

  /** One request: what the handler does to the session, and the id for a new one. */
  datatype Request = Request(ops: seq<Op>, newId: Id)

  function Loaded(w: World, r: Request): Handle {
    match w.cookie
    case None => Open(r.newId, map[])
    case Some(id) => Open(id, if id in w.store then w.store[id] else map[])
  }

  function Persist(h: Handle, store: Store): Store {
    var kept := if h.regeneratedFrom.Some? then store - {h.regeneratedFrom.value} else store;
    if h.destroyed then kept - {h.id}
    else if h.dirty || h.regeneratedFrom.Some? then kept[h.id := Payload(h)]
    else kept
  }

  function Serve(w: World, r: Request): World {
    var h := Run(Loaded(w, r), r.ops);
    World(Persist(h, w.store), if h.destroyed then None else Some(h.id))
  }

  // ----------------------------------------------------------- what it means

  /** What lasts between requests: the user's data, and the flashes for the next one. */
  datatype Kept = Kept(user: Data, flashes: Data)

  const NOTHING := Kept(map[], map[])

  function User(data: Data): Data {
    data - {NEW, OLD}
  }

  function KeptIn(data: Data): Kept {
    Kept(User(data), Bag(data, NEW))
  }

  function KeptBy(w: World): Kept {
    if w.cookie.Some? && w.cookie.value in w.store then KeptIn(w.store[w.cookie.value]) else NOTHING
  }

  /** The user's data after a request: puts and forgets in order, nothing after destroy. */
  function UserAfter(user: Data, ops: seq<Op>): Data {
    if ops == [] then user else
      var before := UserAfter(user, ops[..|ops| - 1]);
      match ops[|ops| - 1]
      case Put(k, v) => before[k := v]
      case Forget(k) => before - {k}
      case Destroy => map[]
      case _ => before
  }

  /** The values a request flashes, the last one for each key. */
  function Flashed(ops: seq<Op>): Data {
    if ops == [] then map[] else
      var before := Flashed(ops[..|ops| - 1]);
      match ops[|ops| - 1]
      case Flash(k, v) => before[k := v]
      case Destroy => map[]
      case _ => before
  }

  /** What a request leaves: a destroyed session leaves nothing. */
  function After(k: Kept, ops: seq<Op>): Kept {
    if Destroy in ops then NOTHING else Kept(UserAfter(k.user, ops), Flashed(ops))
  }

  /** The handler leaves the reserved keys alone. */
  predicate Ordinary(op: Op) {
    op.Put? || op.Forget? || op.Flash? ==> op.key != NEW && op.key != OLD
  }

  predicate AllOrdinary(ops: seq<Op>) {
    forall i | 0 <= i < |ops| :: Ordinary(ops[i])
  }

  // -------------------------------------------------------------- one request

  lemma {:induction false} OpeningRotates(id: Id, data: Data)
    ensures var h := Open(id, data);
            User(h.data) == User(data) && Bag(h.data, OLD) == Bag(data, NEW) && Bag(h.data, NEW) == map[]
    ensures !Open(id, data).dirty ==> Bag(data, NEW) == map[]
  {
    assert User(Open(id, data).data) == User(data);
  }

  lemma {:induction false} OneOperation(h: Handle, op: Op)
    requires Ordinary(op)
    ensures var h' := Apply(h, op);
            && User(h'.data) == (match op case Put(k, v) => User(h.data)[k := v]
                                          case Forget(k) => User(h.data) - {k}
                                          case Destroy => map[]
                                          case _ => User(h.data))
            && Bag(h'.data, NEW) == (match op case Flash(k, v) => Bag(h.data, NEW)[k := v]
                                              case Destroy => map[]
                                              case _ => Bag(h.data, NEW))
            && Bag(h'.data, OLD) == (if op.Destroy? then map[] else Bag(h.data, OLD))
  {
  }

  /** The handle while the handler runs: the user's data so far, the flashes of the
      previous request until a destroy, and those of this one apart. */
  lemma {:induction false} DuringRequest(h0: Handle, ops: seq<Op>)
    requires AllOrdinary(ops) && Bag(h0.data, NEW) == map[]
    ensures var h := Run(h0, ops);
            && User(h.data) == UserAfter(User(h0.data), ops)
            && Bag(h.data, NEW) == Flashed(ops)
            && Bag(h.data, OLD) == (if Destroy in ops then map[] else Bag(h0.data, OLD))
            && (h.destroyed <==> h0.destroyed || Destroy in ops)
  {
    if ops != [] {
      var init, op := ops[..|ops| - 1], ops[|ops| - 1];
      DuringRequest(h0, init);
      assert Ordinary(op);
      assert Destroy in ops <==> Destroy in init || op == Destroy;
      OneOperation(Run(h0, init), op);
    }
  }

  /** Nothing was changed if the handle is not dirty. */
  lemma {:induction false} CleanIsUnchanged(h0: Handle, ops: seq<Op>)
    requires !Run(h0, ops).dirty
    ensures !h0.dirty && Run(h0, ops) == h0
  {
    if ops != [] {
      CleanIsUnchanged(h0, ops[..|ops| - 1]);
    }
  }

  lemma {:induction false} SessionIdsStay(h0: Handle, ops: seq<Op>)
    requires h0.regeneratedFrom.None?
    ensures Run(h0, ops).regeneratedFrom.Some? ==> Run(h0, ops).dirty
    ensures Run(h0, ops).regeneratedFrom.None? ==> Run(h0, ops).id == h0.id
  {
    if ops != [] {
      SessionIdsStay(h0, ops[..|ops| - 1]);
    }
  }

  /** A value read while a request is served: the user's data, else what the previous
      request flashed; never what this request has flashed. */
  lemma {:induction false} ReadDuringRequest(w: World, r: Request, key: string)
    requires AllOrdinary(r.ops) && key != NEW && key != OLD
    ensures var user, flashes := UserAfter(KeptBy(w).user, r.ops), KeptBy(w).flashes;
            var h := Run(Loaded(w, r), r.ops);
            && Get(h, key) == (if key in user then Some(user[key])
                               else if Destroy !in r.ops && key in flashes then Some(flashes[key])
                               else None)
            && (Has(h, key) <==> Get(h, key).Some?)
  {
    var h0 := Loaded(w, r);
    OpeningRotates(h0.id, if w.cookie.Some? && w.cookie.value in w.store then w.store[w.cookie.value] else map[]);
    DuringRequest(h0, r.ops);
    assert key in Run(h0, r.ops).data <==> key in User(Run(h0, r.ops).data);
  }

  /** A request refines its meaning: what the client's next request will find is what
      the handler put and forgot, and what it flashed, whatever ids were rotated. */
  lemma {:induction false} RequestRefines(w: World, r: Request)
    requires AllOrdinary(r.ops) && r.newId !in w.store
    ensures KeptBy(Serve(w, r)) == After(KeptBy(w), r.ops)
  {
    var h0 := Loaded(w, r);
    var h := Run(h0, r.ops);
    OpeningRotates(h0.id, if w.cookie.Some? && w.cookie.value in w.store then w.store[w.cookie.value] else map[]);
    DuringRequest(h0, r.ops);
    SessionIdsStay(h0, r.ops);
    if !h.destroyed {
      if h.dirty {
        assert User(Payload(h)) == User(h.data);
      } else {
        CleanIsUnchanged(h0, r.ops);
      }
    }
  }

  // ------------------------------------------------------------------- runs

  ghost predicate Served(w: World, r: Request, w': World) {
    w' == Serve(w, r) && AllOrdinary(r.ops) && r.newId !in w.store
  }

  ghost predicate IsRun(ws: seq<World>, rs: seq<Request>) {
    |ws| == |rs| + 1 &&
    forall i, j {:trigger Served(ws[i], rs[i], ws[j])} | 0 <= i < |rs| && j == i + 1 :: Served(ws[i], rs[i], ws[j])
  }

  /** A flash lasts exactly one request: what request `n` finds flashed is what request
      `n - 1` flashed, and nothing from any earlier one. */
  lemma {:induction false} FlashLastsOneRequest(ws: seq<World>, rs: seq<Request>, n: nat)
    requires IsRun(ws, rs) && 0 < n <= |rs|
    ensures KeptBy(ws[n]).flashes == if Destroy in rs[n - 1].ops then map[] else Flashed(rs[n - 1].ops)
  {
    assert Served(ws[n - 1], rs[n - 1], ws[n]);
    RequestRefines(ws[n - 1], rs[n - 1]);
  }

  predicate Touches(op: Op, key: string) {
    op.Destroy? || ((op.Put? || op.Forget?) && op.key == key)
  }

  predicate Leaves(ops: seq<Op>, key: string) {
    forall i | 0 <= i < |ops| :: !Touches(ops[i], key)
  }

  function Lookup(data: Data, key: string): Option<Any> {
    if key in data then Some(data[key]) else None
  }

  lemma {:induction false} UntouchedInRequest(user: Data, ops: seq<Op>, key: string)
    requires Leaves(ops, key)
    ensures Lookup(UserAfter(user, ops), key) == Lookup(user, key) && Destroy !in ops
  {
    if ops != [] {
      UntouchedInRequest(user, ops[..|ops| - 1], key);
      assert !Touches(ops[|ops| - 1], key);
    }
  }

  /** A key keeps its value, or its absence, over any number of requests that neither
      put nor forget it nor destroy the session, however often the id is rotated. */
  lemma {:induction false} KeysPersist(ws: seq<World>, rs: seq<Request>, i: nat, n: nat, key: string)
    requires IsRun(ws, rs) && i <= n <= |rs|
    requires forall j | i <= j < n :: Leaves(rs[j].ops, key)
    ensures Lookup(KeptBy(ws[n]).user, key) == Lookup(KeptBy(ws[i]).user, key)
    decreases n
  {
    if i < n {
      KeysPersist(ws, rs, i, n - 1, key);
      assert Served(ws[n - 1], rs[n - 1], ws[n]);
      RequestRefines(ws[n - 1], rs[n - 1]);
      UntouchedInRequest(KeptBy(ws[n - 1]).user, rs[n - 1].ops, key);
    }
  }

  // ---------------------------------------------------------------- rotation

  function Rotations(ops: seq<Op>): nat {
    if ops == [] then 0 else Rotations(ops[..|ops| - 1]) + (if ops[|ops| - 1].Regenerate? then 1 else 0)
  }

  /** The ids a request takes are new: not in the store, not the session's, and distinct. */
  ghost predicate FreshIds(store: Store, id: Id, ops: seq<Op>) {
    && (forall i | 0 <= i < |ops| && ops[i].Regenerate? :: ops[i].newId !in store && ops[i].newId != id)
    && (forall i, j | 0 <= i < j < |ops| && ops[i].Regenerate? && ops[j].Regenerate? :: ops[i].newId != ops[j].newId)
  }

  /** Where the ids stand after a prefix of the request: only the last one left behind
      is remembered. */
  lemma {:induction false} IdsDuringRequest(h0: Handle, store: Store, ops: seq<Op>)
    requires FreshIds(store, h0.id, ops) && h0.regeneratedFrom.None?
    ensures var h := Run(h0, ops);
            && (Rotations(ops) == 0 <==> h.regeneratedFrom.None?) && (Rotations(ops) == 0 <==> h.id == h0.id)
            && (Rotations(ops) == 1 <==> h.regeneratedFrom == Some(h0.id))
            && (h.id == h0.id || exists i | 0 <= i < |ops| :: ops[i] == Regenerate(h.id))
            && (Rotations(ops) > 0 ==> h.dirty && h.regeneratedFrom != Some(h.id))
            && (h.regeneratedFrom.Some? ==> h.regeneratedFrom.value == h0.id || h.regeneratedFrom.value !in store)
  {
    if ops != [] {
      var init, op := ops[..|ops| - 1], ops[|ops| - 1];
      IdsDuringRequest(h0, store, init);
      var before := Run(h0, init);
      if before.id != h0.id {
        var i :| 0 <= i < |init| && init[i] == Regenerate(before.id);
        assert ops[i] == Regenerate(before.id);
      }
      if op.Regenerate? {
        assert ops[|ops| - 1] == Regenerate(op.newId);
      }
    }
  }

  /** A request with exactly one rotation and no destroy leaves the payload under the
      new id, which the client now holds, and nothing under the old one. */
  lemma {:induction false} RotationMovesPayload(w: World, r: Request)
    requires FreshIds(w.store, Loaded(w, r).id, r.ops) && Rotations(r.ops) == 1 && Destroy !in r.ops
    requires AllOrdinary(r.ops)
    ensures var old_, w' := Loaded(w, r).id, Serve(w, r);
            && w'.cookie.Some? && w'.cookie.value != old_
            && old_ !in w'.store && w'.cookie.value in w'.store
            && KeptIn(w'.store[w'.cookie.value]) == After(KeptBy(w), r.ops)
  {
    var h0 := Loaded(w, r);
    var h := Run(h0, r.ops);
    OpeningRotates(h0.id, if w.cookie.Some? && w.cookie.value in w.store then w.store[w.cookie.value] else map[]);
    DuringRequest(h0, r.ops);
    IdsDuringRequest(h0, w.store, r.ops);
    assert User(Payload(h)) == User(h.data);
  }

  // -------------------------------------------------------- what stays stored

  lemma {:induction false} DestroyedIff(h0: Handle, ops: seq<Op>)
    ensures Run(h0, ops).destroyed <==> h0.destroyed || Destroy in ops
  {
    if ops != [] {
      DestroyedIff(h0, ops[..|ops| - 1]);
      assert Destroy in ops <==> Destroy in ops[..|ops| - 1] || ops[|ops| - 1] == Destroy;
    }
  }

  /** The session writes a value: what makes a request on nothing stored worth storing. */
  ghost predicate Writes(ops: seq<Op>) {
    exists i | 0 <= i < |ops| :: ops[i].Put? || ops[i].Flash?
  }

  lemma {:induction false} DirtyIff(id: Id, ops: seq<Op>)
    requires Rotations(ops) == 0 && Destroy !in ops
    ensures var h := Run(Open(id, map[]), ops);
            (h.dirty <==> Writes(ops)) && (!h.dirty ==> h.data == map[])
  {
    if ops != [] {
      var init, op := ops[..|ops| - 1], ops[|ops| - 1];
      DirtyIff(id, init);
      assert op == ops[|ops| - 1] && op in ops;
      if Writes(init) {
        var i :| 0 <= i < |init| && (init[i].Put? || init[i].Flash?);
        assert ops[i] == init[i];
      }
      if op.Put? || op.Flash? {
        assert Writes(ops);
      }
    }
  }

  lemma {:induction false} NoRotationKeepsId(h0: Handle, ops: seq<Op>)
    requires h0.regeneratedFrom.None?
    ensures Rotations(ops) == 0 ==> Run(h0, ops).id == h0.id && Run(h0, ops).regeneratedFrom.None?
  {
    if ops != [] {
      NoRotationKeepsId(h0, ops[..|ops| - 1]);
    }
  }

  lemma {:induction false} LastRotationCounts(h0: Handle, ops: seq<Op>, i: nat)
    requires i < |ops| && ops[i].Regenerate? && Rotations(ops[i + 1..]) == 0
    ensures Run(h0, ops).id == ops[i].newId
    decreases |ops|
  {
    var n := |ops| - 1;
    if i < n {
      assert ops[i + 1..][..|ops[i + 1..]| - 1] == ops[..n][i + 1..];
      LastRotationCounts(h0, ops[..n], i);
    }
  }

  /** The cookie is dropped exactly by a destroy; otherwise the client holds the id of its
      last rotation, and without one the id it came with, stored or not, or the new one. */
  lemma {:induction false} CookieAfter(w: World, r: Request)
    ensures Serve(w, r).cookie == None <==> Destroy in r.ops
    ensures Destroy !in r.ops && Rotations(r.ops) == 0 ==>
              Serve(w, r).cookie == Some(if w.cookie.Some? then w.cookie.value else r.newId)
    ensures Destroy !in r.ops ==>
              forall i | 0 <= i < |r.ops| && r.ops[i].Regenerate? && Rotations(r.ops[i + 1..]) == 0 ::
                Serve(w, r).cookie == Some(r.ops[i].newId)
  {
    DestroyedIff(Loaded(w, r), r.ops);
    NoRotationKeepsId(Loaded(w, r), r.ops);
    forall i | 0 <= i < |r.ops| && r.ops[i].Regenerate? && Rotations(r.ops[i + 1..]) == 0
      ensures Run(Loaded(w, r), r.ops).id == r.ops[i].newId
    {
      LastRotationCounts(Loaded(w, r), r.ops, i);
    }
  }

  /** After a destroy nothing is stored under the id the session ends with; with at most
      one rotation, nothing under the id the request came with either. */
  lemma {:induction false} DestroyRemoves(w: World, r: Request)
    requires Destroy in r.ops
    ensures Run(Loaded(w, r), r.ops).id !in Serve(w, r).store && Serve(w, r).cookie == None
    ensures FreshIds(w.store, Loaded(w, r).id, r.ops) && Rotations(r.ops) <= 1 ==>
              Loaded(w, r).id !in Serve(w, r).store
  {
    DestroyedIff(Loaded(w, r), r.ops);
    if FreshIds(w.store, Loaded(w, r).id, r.ops) {
      IdsDuringRequest(Loaded(w, r), w.store, r.ops);
    }
  }

  /** The client's session is stored when the request comes in. */
  predicate StoredAtStart(w: World) {
    w.cookie.Some? && w.cookie.value in w.store
  }

  /** Exactly which ids are stored after a request. The id it came with: without a rotation
      if the session was not destroyed and was stored or written to; with one, never; with
      more, if it was stored. Any other id: if it was stored, or is the one the client now
      holds. */
  lemma {:induction false} StoredIdsAfter(w: World, r: Request, id: Id)
    requires FreshIds(w.store, Loaded(w, r).id, r.ops)
    ensures var n, w' := Rotations(r.ops), Serve(w, r);
            id in w'.store <==>
              if id != Loaded(w, r).id then id in w.store || w'.cookie == Some(id)
              else if n == 0 then Destroy !in r.ops && (id in w.store || Writes(r.ops))
              else if n == 1 then false
              else id in w.store
  {
    var h0 := Loaded(w, r);
    DestroyedIff(h0, r.ops);
    IdsDuringRequest(h0, w.store, r.ops);
    if Rotations(r.ops) == 0 && Destroy !in r.ops && !StoredAtStart(w) {
      assert h0 == Open(h0.id, map[]);
      DirtyIff(h0.id, r.ops);
    }
  }

  /** No stored payload holds flashes that were already readable. */
  ghost predicate NoReadFlashes(store: Store) {
    forall id | id in store :: OLD !in store[id]
  }

  lemma {:induction false} ReadFlashesAreDropped(w: World, r: Request)
    requires NoReadFlashes(w.store)
    ensures NoReadFlashes(Serve(w, r).store)
  {
  }

  /** A request that only reads leaves the store alone, unless there were flashes to be
      read: these are gone then. */
  lemma {:induction false} ReadingDropsFlashes(w: World, newId: Id)
    ensures var store := Serve(w, Request([], newId)).store;
            if StoredAtStart(w) && NEW in w.store[w.cookie.value] && w.store[w.cookie.value][NEW].Dict? then
              store == w.store[w.cookie.value := w.store[w.cookie.value] - {NEW, OLD}]
            else store == w.store
  {
    if StoredAtStart(w) {
      assert Payload(Open(w.cookie.value, w.store[w.cookie.value])) == w.store[w.cookie.value] - {NEW, OLD};
    }
  }

  /** With any number of rotations, the id the request came with is gone afterwards
      exactly if it rotated once, or nothing was stored under it: a second rotation
      forgets the first id. */
  lemma {:induction false} OldIdIsGoneIff(w: World, r: Request)
    requires FreshIds(w.store, Loaded(w, r).id, r.ops) && Rotations(r.ops) > 0
    ensures Loaded(w, r).id !in Serve(w, r).store <==> Rotations(r.ops) == 1 || Loaded(w, r).id !in w.store
  {
    IdsDuringRequest(Loaded(w, r), w.store, r.ops);
  }

  lemma {:induction false} RunTwo(h: Handle, a: Op, b: Op)
    ensures Run(h, [a]) == Apply(h, a) && Run(h, [a, b]) == Apply(Apply(h, a), b)
  {
    assert [a][..0] == [] && [a, b][..1] == [a];
  }

  /** Two rotations in one request, and the payload is still there under the first id. */
  lemma {:induction false} TwoRotationsKeepOldId()
    ensures var r := Request([Regenerate(2), Regenerate(3)], 9);
            var w := Serve(World(map[1 := map["user" := Atom(7)]], Some(1)), r);
            w.cookie == Some(3) && w.store == map[1 := map["user" := Atom(7)], 3 := map["user" := Atom(7)]]
  {
    var data: Data := map["user" := Atom(7)];
    var h := Open(1, data);
    assert h.data == data;
    RunTwo(h, Regenerate(2), Regenerate(3));
    assert Payload(Run(h, [Regenerate(2), Regenerate(3)])) == data;
  }

  /** No other session is touched. */
  lemma {:induction false} OtherSessionsStay(w: World, r: Request, id: Id)
    requires FreshIds(w.store, Loaded(w, r).id, r.ops) && id in w.store && id != Loaded(w, r).id
    ensures id in Serve(w, r).store && Serve(w, r).store[id] == w.store[id]
  {
    IdsDuringRequest(Loaded(w, r), w.store, r.ops);
  }

  // --------------------------------------------------------- the two readers

  /** `all` and `get` read a key alike exactly if the user has no value under it, or the
      readable flash under it is the same value, or it is neither flashed nor prefixed
      like the bags: `get` prefers the user's value, `all` the flash, and `all` drops
      every prefixed key of the user's. */
  lemma {:induction false} AllAgreesIff(h: Handle, key: string)
    ensures Lookup(All(h), key) == Get(h, key) <==>
              (key in h.data ==>
                 if key in Bag(h.data, OLD) then h.data[key] == Bag(h.data, OLD)[key] else !FlashPrefixed(key))
  {
  }

  /** The handle of a second request, which puts `key` after the first one did `op`. */
  function SecondRequest(op: Op, key: string, value: Any): Handle {
    Run(Loaded(Serve(World(map[], None), Request([op], 1)), Request([Put(key, value)], 2)), [Put(key, value)])
  }

  lemma {:induction false} PutIsSeen(op: Op, key: string, value: Any)
    requires Ordinary(op) && key != NEW && key != OLD
    ensures var h := SecondRequest(op, key, value);
            && key in h.data && h.data[key] == value
            && Bag(h.data, OLD) == (if op.Flash? then map[op.key := op.value] else map[])
  {
    var w0, r1, r2 := World(map[], None), Request([op], 1), Request([Put(key, value)], 2);
    var w1 := Serve(w0, r1);
    RequestRefines(w0, r1);
    assert [op][..0] == [] && Flashed([]) == map[];
    var stored := if w1.cookie.Some? && w1.cookie.value in w1.store then w1.store[w1.cookie.value] else map[];
    var h1 := Loaded(w1, r2);
    OpeningRotates(h1.id, stored);
    assert Run(h1, r2.ops) == Apply(h1, Put(key, value)) by {
      assert r2.ops[..0] == [];
    }
    OneOperation(h1, Put(key, value));
  }

  /** A put over a flash of the previous request, and a put under a prefixed key: `get`
      finds the value that was put, `all` the flash and nothing. */
  lemma {:induction false} AllAndGetDiffer()
    ensures var h := SecondRequest(Flash("k", Atom(1)), "k", Atom(2));
            Get(h, "k") == Some(Atom(2)) && Lookup(All(h), "k") == Some(Atom(1))
    ensures var h := SecondRequest(Destroy, "_flash:x", Atom(1));
            Get(h, "_flash:x") == Some(Atom(1)) && Lookup(All(h), "_flash:x") == None
  {
    PutIsSeen(Flash("k", Atom(1)), "k", Atom(2));
    PutIsSeen(Destroy, "_flash:x", Atom(1));
    assert "_flash:x" == "_flash:" + "x";
  }
}
