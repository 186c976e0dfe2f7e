/** The WatchState class of script.js:76-219, with the in-place edits other parts
    of script.js make to its map (peer view, watch-together merges, memory
    removal). */
module WatchStore {
  import opened Wrappers
  import opened Catalog
  import opened Graph
  import opened Progress

  class WatchState {
    /** The progress map. */
    var data: ProgressMap
    /** `byId`: project by id. */
    var byId: map<string, Project>
    /** `p.unlocks` of every project, by id. */
    var unlocks: map<string, seq<string>>
    /** The subscribed listeners. */
    var listeners: set<nat>
    /** Whether an auth token is present. */
    var loggedIn: bool
    /** Every map save has persisted and handed to the listeners, oldest first. */
    var saves: seq<ProgressMap>

    predicate Valid()
      reads this
    {
      data.Valid()
    }

    /** initProjects has run on `ps`. */
    predicate Initialized(ps: seq<Project>)
      reads this
    {
      byId == ById(ps) &&
      UnlocksTableFor(unlocks, ps) &&
      (forall k :: k in unlocks ==> k in byId)
    }

    constructor (loggedIn: bool)
      ensures Valid() && data == Empty && byId == map[] && unlocks == map[]
      ensures listeners == {} && saves == [] && this.loggedIn == loggedIn
    {
      data := Empty;
      byId := map[];
      unlocks := map[];
      listeners := {};
      this.loggedIn := loggedIn;
      saves := [];
    }

    /** The watched ids. */
    function Watched(): set<string>
      reads this
    {
      data.Keys()
    }

    predicate IsWatched(id: string)
      reads this
    {
      id in data.entries
    }

    /** save: persist the map (to the server when logged in, to the local cache
        otherwise) and notify every listener. */
    method Save()
      modifies this`saves
      ensures saves == old(saves) + [data]
    {
      saves := saves + [data];
    }

    /** The payload the last save wrote, in the shape of each destination: what
        a later load reads back is the map as it was saved (entries normalised by
        the server, keys in property order in the cache). */
    function LastPersisted(): (r: Option<(seq<ServerEntry>, seq<(string, CacheValue)>)>)
      requires forall i :: 0 <= i < |saves| ==> saves[i].Valid()
      reads this
      ensures r.None? <==> saves == []
      ensures r.Some? ==> var m := saves[|saves| - 1];
        r.value.0 == EncodeServer(m) && r.value.1 == EncodeCache(m) &&
        DecodeServer(Empty, r.value.0) == NormalizedMap(m) &&
        DecodeCache(Empty, r.value.1) == CacheOrdered(m) &&
        DecodeCache(Empty, r.value.1).entries == m.entries
    {
      if saves == [] then None
      else
        var m := saves[|saves| - 1];
        Some(Persisted(m))
    }

    /** load (script.js:85-119). */
    method Load(response: Option<seq<ServerEntry>>, cache: Option<seq<(string, CacheValue)>>)
      requires Valid()
      modifies this`data
      ensures Valid() && data == Loaded(old(data), loggedIn, response, cache)
    {
      if loggedIn && response.Some? {
        LoadServer(response.value);
      } else if cache.Some? {
        LoadCache(cache.value);
      }
    }

    /** The forEach of script.js:95-99. */
    method LoadServer(es: seq<ServerEntry>)
      requires Valid()
      modifies this`data
      ensures Valid() && data == DecodeServer(old(data), es)
    {
      var i := 0;
      while i < |es|
        invariant 0 <= i <= |es|
        invariant data.Valid() && data == DecodeServer(old(data), es[..i])
      {
        assert es[..i + 1][..i] == es[..i];
        data := Put(data, es[i].projectId, FromServer(es[i]));
        i := i + 1;
      }
      assert es[..|es|] == es;
    }

    /** The forEach of script.js:108-115. */
    method LoadCache(saved: seq<(string, CacheValue)>)
      requires Valid()
      modifies this`data
      ensures Valid() && data == DecodeCache(old(data), saved)
    {
      var i := 0;
      while i < |saved|
        invariant 0 <= i <= |saved|
        invariant data.Valid() && data == DecodeCache(old(data), saved[..i])
      {
        assert saved[..i + 1][..i] == saved[..i];
        var (id, v) := saved[i];
        match v {
          case Flag(b) =>
            if b {
              data := Put(data, id, FreshEntry);
            }
          case Record(e) =>
            data := Put(data, id, e);
        }
        i := i + 1;
      }
      assert saved[..|saved|] == saved;
    }

    /** A successful login empties the map and loads it again (script.js:746-752). */
    method ReloadAfterLogin(response: Option<seq<ServerEntry>>, cache: Option<seq<(string, CacheValue)>>)
      requires Valid()
      modifies this`data, this`loggedIn
      ensures loggedIn && Valid() && data == Loaded(Empty, true, response, cache)
    {
      loggedIn := true;
      data := Empty;
      Load(response, cache);
    }

    /** watchAgain (script.js:152-158). */
    method WatchAgain(id: string)
      requires Valid()
      modifies this`data, this`saves
      ensures Valid() && data == WatchedAgain(old(data), id)
      ensures saves == if id in old(data.entries) then old(saves) + [data] else old(saves)
    {
      if id in data.entries {
        var e := data.entries[id];
        data := Put(data, id, e.(count := e.count + 1));
        Save();
      }
    }

    /** toggle (script.js:160-168): returns the new watched status. */
    method Toggle(id: string) returns (watched: bool)
      requires Valid()
      modifies this`data, this`saves
      ensures Valid() && data == Toggled(old(data), id) && saves == old(saves) + [data]
      ensures watched == IsWatched(id) && (watched <==> id !in old(data.entries))
    {
      if IsWatched(id) {
        data := Delete(data, id);
      } else {
        data := Put(data, id, FreshEntry);
      }
      Save();
      watched := IsWatched(id);
    }

    /** clear (script.js:170-185): the server receives an empty list, or the local
        cache item is removed, which loads as an empty object. */
    method Clear()
      requires Valid()
      modifies this`data, this`saves
      ensures Valid() && data == Empty && saves == old(saves) + [Empty]
    {
      data := Empty;
      Save();
    }

    /** getLastWatchedId (script.js:188-194). */
    method GetLastWatchedId() returns (id: string)
      requires Valid()
      ensures id == LastWatchedId(data)
      ensures data.entries == map[] ==> id == StartNodeId
      ensures data.entries != map[] ==> id in data.entries
    {
      var watched: seq<string> := [];
      var i := 0;
      while i < |data.order|
        invariant 0 <= i <= |data.order|
        invariant watched == data.order[..i]
      {
        watched := watched + [data.order[i]];
        i := i + 1;
      }
      assert watched == data.order;
      LastWatchedIdIsNewestKey(data);
      id := if |watched| > 0 then watched[|watched| - 1] else StartNodeId;
    }

    /** subscribe (script.js:196-199). */
    method Subscribe(fn: nat)
      modifies this`listeners
      ensures listeners == old(listeners) + {fn}
    {
      listeners := listeners + {fn};
    }

    /** The function subscribe returns. */
    method Unsubscribe(fn: nat)
      modifies this`listeners
      ensures listeners == old(listeners) - {fn}
    {
      listeners := listeners - {fn};
    }

    /** initProjects (script.js:201-210). */
    method InitProjects(ps: seq<Project>)
      modifies this`byId, this`unlocks
      ensures Initialized(ps)
    {
      byId := IndexById(ps);
      unlocks := UnlocksTable(ps);
    }

    /** viewFriendProgress (script.js:1030-1039): keep the own map aside and show
        the peer's entries instead. */
    method BeginPeerView(peer: seq<ServerEntry>) returns (saved: ProgressMap)
      requires Valid()
      modifies this`data
      ensures saved == old(data) && Valid() && data == DecodeServer(Empty, peer)
    {
      saved := data;
      data := Empty;
      LoadServer(peer);
    }

    /** The exit button (script.js:1047-1053): put the kept entries back one by one. */
    method EndPeerView(saved: ProgressMap)
      requires saved.Valid()
      modifies this`data
      ensures Valid() && data == saved
    {
      data := Empty;
      var i := 0;
      while i < |saved.order|
        invariant 0 <= i <= |saved.order|
        invariant data == Replayed(Empty, saved.order[..i], saved.entries)
      {
        assert saved.order[..i + 1][..i] == saved.order[..i];
        var k := saved.order[i];
        data := Put(data, k, saved.entries[k]);
        i := i + 1;
      }
      assert saved.order[..|saved.order|] == saved.order;
      ReplayAll(saved);
    }

    /** The delete button of a memory (script.js:624-625), after the server call. */
    method RemoveMemory(id: string, url: string)
      requires Valid()
      modifies this`data
      ensures Valid() && data == MemoryRemoved(old(data), id, url)
    {
      if id in data.entries {
        var e := data.entries[id];
        data := Put(data, id, e.(memories := WithoutUrl(e.memories, url)));
      }
    }

    /** The accept button of a pending request (script.js:946-957), after the
        server call; `kind` and `projectId` are the button's data attributes,
        `requester` the requester's name in the response. A missing
        `watchedWith` is read as `[]`. */
    method AcceptWatchRequest(kind: string, projectId: string, requester: Option<string>)
      requires Valid()
      modifies this`data, this`saves
      ensures Valid()
      ensures kind == "watch" && projectId != "" ==>
        data == AcceptMerge(old(data), projectId, requester) && saves == old(saves) + [data]
      ensures !(kind == "watch" && projectId != "") ==> data == old(data) && saves == old(saves)
    {
      if kind == "watch" && projectId != "" {
        data := AcceptMerge(data, projectId, requester);
        Save();
      }
    }

    /** A "Send Request" button of the watched-with-a-friend dialog
        (script.js:1091-1125): mark the project watched, then, once the request
        went out (`sent`), record the friend as a co-viewer. A missing
        `watchedWith` is read as `[]`. */
    method WatchedWithFriend(id: string, friend: string, sent: bool)
      requires Valid()
      modifies this`data, this`saves
      ensures Valid()
      ensures var w := MarkWatchedTogether(old(data), id);
        data == (if sent then RecordCoViewer(w, id, friend) else w) &&
        saves == old(saves) + (if id in old(data.entries) then [] else [w]) + (if data != w then [data] else [])
    {
      if !IsWatched(id) {
        data := Put(data, id, Entry(1, Some([]), []));
        Save();
      }
      var w := data;
      if sent {
        var e := data.entries[id];
        var names := e.watchedWith.GetOr([]);
        if friend !in names {
          data := Put(data, id, e.(watchedWith := Some(names + [friend])));
          assert data.entries[id] != w.entries[id];
          Save();
        }
      }
    }
  }

  /** watchAgain leaves every node's visibility and unlock state as it was, since
      it keeps the key set. */
  lemma WatchAgainKeepsGates(m: ProgressMap, id: string, p: Project)
    requires m.Valid()
    ensures IsVisible(p, WatchedAgain(m, id).Keys()) == IsVisible(p, m.Keys())
    ensures IsUnlocked(p, WatchedAgain(m, id).Keys()) == IsUnlocked(p, m.Keys())
  {
    WatchAgainSpec(m, id);
  }

  /** `new Map(projects.map(p => [p.id, p]))`: a later project with the same id
      replaces an earlier one. */
  method IndexById(ps: seq<Project>) returns (m: map<string, Project>)
    ensures m == ById(ps)
  {
    m := map[];
    var i := 0;
    while i < |ps|
      invariant 0 <= i <= |ps|
      invariant m == ById(ps[..i])
    {
      assert ps[..i + 1][..i] == ps[..i];
      m := m[ps[i].id := ps[i]];
      i := i + 1;
    }
    assert ps[..|ps|] == ps;
  }

  /** The `p.unlocks = ...` assignments of initProjects, one per project. */
  method UnlocksTable(ps: seq<Project>) returns (t: map<string, seq<string>>)
    ensures UnlocksTableFor(t, ps)
    ensures forall k :: k in t ==> exists i :: 0 <= i < |ps| && ps[i].id == k
  {
    t := map[];
    var i := 0;
    while i < |ps|
      invariant 0 <= i <= |ps|
      invariant forall j :: 0 <= j < i ==> ps[j].id in t && t[ps[j].id] == Unlocks(ps, ps[j].id)
      invariant forall k :: k in t ==> exists j :: 0 <= j < i && ps[j].id == k
    {
      t := t[ps[i].id := Unlocks(ps, ps[i].id)];
      i := i + 1;
    }
  }
}
