/** internal/forwarder/forwarder.go: the registry of open forwarder handles, one per container ID. */
module Registry {
  import opened Common

  /** The handle Set displaces, or Close hands to its caller. */
  function Bound<H>(m: map<string, H>, id: string): Option<H>
  {
    if id in m then Some(m[id]) else None
  }

  predicate Injective<H(==)>(m: map<string, H>)
  {
    forall i, j :: i in m && j in m && i != j ==> m[i] != m[j]
  }

  /** A Handle, counting the calls of its Close. */
  class Handle {
    var closes: nat

    constructor ()
      ensures closes == 0
    {
      closes := 0;
    }

    method Close()
      modifies this
      ensures closes == old(closes) + 1
    {
      closes := closes + 1;
    }
  }

  class Registry {
    var handles: map<string, Handle>

    /** No handle is bound twice and no bound handle has been closed. */
    ghost predicate Valid()
      reads this, handles.Values
    {
      Injective(handles) && forall id :: id in handles ==> handles[id].closes == 0
    }

    constructor ()
      ensures Valid() && handles == map[]
    {
      handles := map[];
    }

    /** The registry stays valid exactly when the new handle is open and not bound yet, as one fresh from Open is. */
    method Set(id: string, h: Handle)
      requires Valid()
      modifies this, if id in handles then {handles[id]} else {}
      ensures handles == old(handles)[id := h]
      ensures id in old(handles) ==> old(handles)[id].closes == 1
      ensures Valid() <==> old(h.closes) == 0 && h !in old(handles.Values)
    {
      if id in handles {
        handles[id].Close();
      }
      ghost var before := handles;
      handles := handles[id := h];
      assert handles[id] == h;
      assert forall k :: k in before && k != id ==> handles[k] == before[k];
    }

    method Close(id: string)
      requires Valid()
      modifies this, if id in handles then {handles[id]} else {}
      ensures Valid() && handles == old(handles) - {id}
      ensures id in old(handles) ==> old(handles)[id].closes == 1
    {
      var h := Bound(handles, id);
      handles := handles - {id};
      if h.Some? {
        h.value.Close();
      }
    }

    method Has(id: string) returns (found: bool)
      ensures found == (id in handles)
    {
      found := id in handles;
    }

    /** Empties the registry and closes each handle once, in whatever order the map is walked. */
    method Shutdown()
      requires Valid()
      modifies this, handles.Values
      ensures Valid() && handles == map[]
      ensures forall id :: id in old(handles) ==> old(handles)[id].closes == 1
    {
      var prev := handles;
      handles := map[];
      var todo := prev.Keys;
      while todo != {}
        invariant handles == map[] && todo <= prev.Keys
        invariant forall id :: id in prev ==> prev[id].closes == if id in todo then 0 else 1
        decreases todo
      {
        var id :| id in todo;
        todo := todo - {id};
        prev[id].Close();
      }
    }
  }
}
