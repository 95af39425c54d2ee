/** The session handle and its middleware, updated in place. */
module Sessions {
  import opened Options
  import opened SessionSpec

  class Session {
    var id: Id
    var data: Data
    var dirty: bool
    var destroyed: bool
    var regeneratedFrom: Option<Id>

    ghost function Model(): Handle
      reads this
    {
      Handle(id, data, dirty, destroyed, regeneratedFrom)
    }

    constructor (id: Id, data: Data)
      ensures Model() == SessionSpec.Open(id, data)
    {
      this.id := id;
      this.data := data;
      dirty := false;
      destroyed := false;
      regeneratedFrom := None;
      new;
      var newFlash := if NEW in this.data then Some(this.data[NEW]) else None;
      this.data := this.data - {NEW};
      if newFlash.Some? && newFlash.value.Dict? {
        this.data := this.data[OLD := newFlash.value];
        dirty := true;
      } else {
        this.data := this.data - {OLD};
        assert this.data == data - {NEW, OLD};
      }
    }

    method Get(key: string, default: Any) returns (r: Any)
      ensures r == match SessionSpec.Get(Model(), key) { case Some(v) => v case None => default }
    {
      if key in data {
        return data[key];
      }
      if OLD in data && data[OLD].Dict? && key in data[OLD].entries {
        return data[OLD].entries[key];
      }
      return default;
    }

    method Has(key: string) returns (r: bool)
      ensures r == SessionSpec.Has(Model(), key)
    {
      if key in data {
        return true;
      }
      return OLD in data && data[OLD].Dict? && key in data[OLD].entries;
    }

    method All() returns (merged: Data)
      ensures merged == SessionSpec.All(Model())
    {
      merged := map k | k in data && !FlashPrefixed(k) :: data[k];
      if OLD in data && data[OLD].Dict? {
        merged := merged + data[OLD].entries;
      } else {
        assert merged + map[] == merged;
      }
    }

    method Put(key: string, value: Any)
      modifies this
      ensures Model() == Apply(old(Model()), Op.Put(key, value))
    {
      data := data[key := value];
      dirty := true;
    }

    method Forget(key: string)
      modifies this
      ensures Model() == Apply(old(Model()), Op.Forget(key))
    {
      if key in data {
        data := data - {key};
        dirty := true;
      }
    }

    /** A missing or malformed bag is replaced by an empty one first. */
    method Flash(key: string, value: Any)
      modifies this
      ensures Model() == Apply(old(Model()), Op.Flash(key, value))
    {
      if NEW !in data {
        data := data[NEW := Dict(map[])];
      }
      if !data[NEW].Dict? {
        data := data[NEW := Dict(map[])];
      }
      data := data[NEW := Dict(data[NEW].entries[key := value])];
      dirty := true;
      assert data == old(data)[NEW := Dict(Bag(old(data), NEW)[key := value])];
    }

    method Regenerate(newId: Id)
      modifies this
      ensures Model() == Apply(old(Model()), Op.Regenerate(newId))
    {
      regeneratedFrom := Some(id);
      id := newId;
      dirty := true;
    }

    method Destroy()
      modifies this
      ensures Model() == Apply(old(Model()), Op.Destroy)
    {
      destroyed := true;
      dirty := true;
      data := map[];
    }

    method ToPayload() returns (payload: Data)
      ensures payload == Payload(Model())
    {
      payload := map k | k in data && k != OLD :: data[k];
      assert payload == data - {OLD};
    }
  }

  class SessionMiddleware {
    var store: Store

    constructor (store: Store)
      ensures this.store == store
    {
      this.store := store;
    }

    static method Perform(session: Session, op: Op)
      modifies session
      ensures session.Model() == Apply(old(session.Model()), op)
    {
      match op
      case Put(k, v) => session.Put(k, v);
      case Forget(k) => session.Forget(k);
      case Flash(k, v) => session.Flash(k, v);
      case Regenerate(newId) => session.Regenerate(newId);
      case Destroy => session.Destroy();
    }

    method PersistSession(session: Session)
      modifies this
      ensures store == Persist(session.Model(), old(store))
    {
      if session.regeneratedFrom.Some? {
        store := store - {session.regeneratedFrom.value};
      }
      if session.destroyed {
        store := store - {session.id};
        return;
      }
      if session.dirty || session.regeneratedFrom.Some? {
        var payload := session.ToPayload();
        store := store[session.id := payload];
      }
    }

    /** Serves one request; the handler is the sequence of calls it makes on the session.
        Answers with the cookie the client is left with. */
    method Handle(cookie: Option<Id>, request: Request) returns (cookie': Option<Id>)
      modifies this
      ensures World(store, cookie') == Serve(World(old(store), cookie), request)
    {
      var sessionId := cookie;
      var data: Data := map[];
      if sessionId.Some? && sessionId.value in store {
        data := store[sessionId.value];
      }
      if sessionId.None? {
        sessionId := Some(request.newId);
      }
      var session := new Session(sessionId.value, data);
      ghost var loaded := session.Model();
      for i := 0 to |request.ops|
        invariant fresh(session) && store == old(store)
        invariant session.Model() == Run(loaded, request.ops[..i])
      {
        Perform(session, request.ops[i]);
        assert request.ops[..i + 1][..i] == request.ops[..i];
      }
      assert request.ops[..|request.ops|] == request.ops;
      PersistSession(session);
      cookie' := if session.destroyed then None else Some(session.id);
    }
  }
}
