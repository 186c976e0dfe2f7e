/** The MapRenderer of script.js:283-524: the keyed table of node elements, the
    drawn edges, the container size and phase indicator, the one-slot centering
    request and the click guard. Elements are modelled by their id, position and
    the two state classes; markup, images and arrow geometry are not. */
module Scene {
  import opened Wrappers
  import opened Catalog
  import opened Graph
  import opened Layout
  import opened Progress
  import opened WatchStore

  /** A `.node` element: `data-id`, `style.left`/`style.top`, and the `watched`
      and `locked` classes. */
  class NodeElement {
    const id: string
    var left: int
    var top: int
    var watched: bool
    var locked: bool

    constructor (id: string, pos: Point, watched: bool, locked: bool)
      ensures this.id == id && left == pos.x && top == pos.y
      ensures this.watched == watched && this.locked == locked
    {
      this.id := id;
      left := pos.x;
      top := pos.y;
      this.watched := watched;
      this.locked := locked;
    }
  }

  /** `n` shows project `p` as renderNodes and updateNodeState leave it. */
  predicate Shows(n: NodeElement, p: Project, watched: set<string>, b: Bounds, cfg: Config)
    reads n
  {
    n.id == p.id && n.left == ToPixel(p.gridX, p.gridY, b, cfg).x && n.top == ToPixel(p.gridX, p.gridY, b, cfg).y &&
    n.watched == (p.id in watched) && n.locked == !IsUnlocked(p, watched)
  }

  /** Every visible project of `ps` has its element in `elements`, showing it. */
  predicate ShowsAll(elements: map<string, NodeElement>, ps: seq<Project>, watched: set<string>, b: Bounds, cfg: Config)
    reads elements.Values
  {
    forall i :: 0 <= i < |ps| && IsVisible(ps[i], watched) ==>
      ps[i].id in elements && Shows(elements[ps[i].id], ps[i], watched, b, cfg)
  }

  // ---------------------------------------------------------------------
  // The edges renderArrows draws (script.js:416-444)

  /** A child id renderArrows draws an arrow to: known to `byId`, visible, and
      holding an element. */
  predicate DrawsChild(byId: map<string, Project>, c: string, watched: set<string>, keys: set<string>) {
    c in byId && IsVisible(byId[c], watched) && c in keys
  }

  /** The arrows from `parent` to the children `cs`. */
  function EdgesFrom(byId: map<string, Project>, parent: string, cs: seq<string>, watched: set<string>, keys: set<string>): (r: seq<(string, string)>)
    ensures |r| <= |cs|
  {
    if cs == [] then []
    else
      var c := cs[|cs| - 1];
      EdgesFrom(byId, parent, cs[..|cs| - 1], watched, keys) +
        (if DrawsChild(byId, c, watched, keys) then [(parent, c)] else [])
  }

  /** Parent `ps[i]` is drawn: visible and holding an element. */
  predicate ParentDrawn(ps: seq<Project>, i: int, unlocks: map<string, seq<string>>, watched: set<string>, keys: set<string>)
    requires 0 <= i < |ps|
  {
    IsVisible(ps[i], watched) && ps[i].id in keys && ps[i].id in unlocks
  }

  /** The arrows of the first `n` parents, in drawing order. */
  function Edges(ps: seq<Project>, n: nat, byId: map<string, Project>, unlocks: map<string, seq<string>>,
                 watched: set<string>, keys: set<string>): seq<(string, string)>
    requires n <= |ps|
  {
    if n == 0 then []
    else
      var p := ps[n - 1];
      Edges(ps, n - 1, byId, unlocks, watched, keys) +
        (if ParentDrawn(ps, n - 1, unlocks, watched, keys)
         then EdgesFrom(byId, p.id, unlocks[p.id], watched, keys) else [])
  }

  lemma {:induction false} EdgesFromMembers(byId: map<string, Project>, parent: string, cs: seq<string>, watched: set<string>, keys: set<string>, e: (string, string))
    ensures e in EdgesFrom(byId, parent, cs, watched, keys) <==> e.0 == parent && e.1 in cs && DrawsChild(byId, e.1, watched, keys)
  {
    if cs != [] {
      EdgesFromMembers(byId, parent, cs[..|cs| - 1], watched, keys, e);
      assert cs == cs[..|cs| - 1] + [cs[|cs| - 1]];
    }
  }

  /** Parent `ps[i]` draws edge `e`. */
  predicate ParentDraws(ps: seq<Project>, i: int, byId: map<string, Project>, unlocks: map<string, seq<string>>,
                        watched: set<string>, keys: set<string>, e: (string, string))
    requires 0 <= i < |ps|
  {
    ParentDrawn(ps, i, unlocks, watched, keys) && ps[i].id == e.0 &&
    e.1 in unlocks[e.0] && DrawsChild(byId, e.1, watched, keys)
  }

  lemma {:induction false} EdgesMembers(ps: seq<Project>, n: nat, byId: map<string, Project>, unlocks: map<string, seq<string>>,
                                        watched: set<string>, keys: set<string>, e: (string, string))
    requires n <= |ps|
    ensures e in Edges(ps, n, byId, unlocks, watched, keys) <==>
      exists i :: 0 <= i < n && ParentDraws(ps, i, byId, unlocks, watched, keys, e)
  {
    if n > 0 {
      EdgesMembers(ps, n - 1, byId, unlocks, watched, keys, e);
      var p := ps[n - 1];
      if ParentDrawn(ps, n - 1, unlocks, watched, keys) {
        EdgesFromMembers(byId, p.id, unlocks[p.id], watched, keys, e);
      }
      if e in Edges(ps, n, byId, unlocks, watched, keys) && e !in Edges(ps, n - 1, byId, unlocks, watched, keys) {
        assert ParentDraws(ps, n - 1, byId, unlocks, watched, keys, e);
      }
      if exists i :: 0 <= i < n && ParentDraws(ps, i, byId, unlocks, watched, keys, e) {
        var i :| 0 <= i < n && ParentDraws(ps, i, byId, unlocks, watched, keys, e);
        if i < n - 1 {
          assert e in Edges(ps, n - 1, byId, unlocks, watched, keys);
        }
      }
    }
  }

  /** With the tables initProjects builds and one element per visible node, the
      arrows are exactly the pairs (parent, child) of visible catalog entries
      where the parent is a prerequisite of the child. */
  lemma {:induction false} DrawnEdgesExact(ps: seq<Project>, unlocks: map<string, seq<string>>, watched: set<string>, a: string, c: string)
    requires DistinctIds(ps) && UnlocksTableFor(unlocks, ps)
    ensures (a, c) in Edges(ps, |ps|, ById(ps), unlocks, watched, VisibleIds(ps, watched)) <==>
      exists i, j :: 0 <= i < |ps| && 0 <= j < |ps| && ps[i].id == a && ps[j].id == c &&
        IsVisible(ps[i], watched) && IsVisible(ps[j], watched) && a in ps[j].prerequisites
  {
    var keys := VisibleIds(ps, watched);
    var byId := ById(ps);
    EdgesMembers(ps, |ps|, byId, unlocks, watched, keys, (a, c));
    if (a, c) in Edges(ps, |ps|, byId, unlocks, watched, keys) {
      var i :| 0 <= i < |ps| && ParentDraws(ps, i, byId, unlocks, watched, keys, (a, c));
      assert c in Unlocks(ps, a);
      var j :| 0 <= j < |ps| && ps[j].id == c && a in ps[j].prerequisites;
      ByIdFinds(ps, j);
    }
    if exists i, j :: 0 <= i < |ps| && 0 <= j < |ps| && ps[i].id == a && ps[j].id == c &&
        IsVisible(ps[i], watched) && IsVisible(ps[j], watched) && a in ps[j].prerequisites {
      var i, j :| 0 <= i < |ps| && 0 <= j < |ps| && ps[i].id == a && ps[j].id == c &&
        IsVisible(ps[i], watched) && IsVisible(ps[j], watched) && a in ps[j].prerequisites;
      ByIdFinds(ps, j);
      assert ps[i] in ps && ps[j] in ps;
      assert a in keys && c in keys;
      assert c in Unlocks(ps, a);
      assert ParentDraws(ps, i, byId, unlocks, watched, keys, (a, c));
    }
  }

  // ---------------------------------------------------------------------
  // Centering (script.js:501-523)

  /** A client rectangle, as getBoundingClientRect reports it. */
  datatype Rect = Rect(left: real, top: real, width: real, height: real)

  /** A scroll position of the map wrapper. */
  datatype Scroll = Scroll(left: real, top: real)

  /** `this.pendingCenterTarget || state.getLastWatchedId()`: an empty pending id
      is falsy and falls through. */
  function CenterTargetId(pending: Option<string>, last: string): string {
    if pending.Some? && pending.value != "" then pending.value else last
  }

  /** The target is the pending id when there is one, else the most recently
      inserted progress key, else the start node. */
  lemma CenterTargetRule(pending: Option<string>, m: ProgressMap)
    requires m.Valid()
    ensures pending.Some? && pending.value != "" ==> CenterTargetId(pending, LastWatchedId(m)) == pending.value
    ensures !(pending.Some? && pending.value != "") && m.entries == map[] ==>
      CenterTargetId(pending, LastWatchedId(m)) == StartNodeId
    ensures !(pending.Some? && pending.value != "") && m.entries != map[] ==>
      CenterTargetId(pending, LastWatchedId(m)) == m.order[|m.order| - 1]
  {
    LastWatchedIdIsNewestKey(m);
  }

  /** `Math.max(0, v)`. */
  function NonNegativePart(v: real): (r: real)
    ensures r >= 0.0 && r >= v && (v >= 0.0 ==> r == v)
  {
    if v < 0.0 then 0.0 else v
  }

  /** The scroll offset that would put the node's centre at the wrapper's centre. */
  function CenteringOffset(current: real, nodeStart: real, nodeSize: real, wrapperStart: real, wrapperSize: real): real {
    current + (nodeStart - wrapperStart) - wrapperSize / 2.0 + nodeSize / 2.0
  }

  /** The argument of the `scrollTo` call. */
  function ScrollTarget(current: Scroll, node: Rect, wrapper: Rect): (s: Scroll)
    ensures s.left >= 0.0 && s.top >= 0.0
  {
    Scroll(NonNegativePart(CenteringOffset(current.left, node.left, node.width, wrapper.left, wrapper.width)),
           NonNegativePart(CenteringOffset(current.top, node.top, node.height, wrapper.top, wrapper.height)))
  }

  /** When no clamping happens, scrolling to the target moves the node's centre
      onto the wrapper's centre; otherwise the offset is 0. */
  lemma ScrollCentersNode(current: Scroll, node: Rect, wrapper: Rect)
    ensures var s := ScrollTarget(current, node, wrapper);
      var l := CenteringOffset(current.left, node.left, node.width, wrapper.left, wrapper.width);
      var t := CenteringOffset(current.top, node.top, node.height, wrapper.top, wrapper.height);
      (l >= 0.0 ==> node.left + node.width / 2.0 - (s.left - current.left) == wrapper.left + wrapper.width / 2.0) &&
      (t >= 0.0 ==> node.top + node.height / 2.0 - (s.top - current.top) == wrapper.top + wrapper.height / 2.0) &&
      (l < 0.0 ==> s.left == 0.0) && (t < 0.0 ==> s.top == 0.0)
  {
  }

  // ---------------------------------------------------------------------
  // The click guard (script.js:300-317)

  /** Whether a click on the node with `id` opens its popup: the id must name a
      project; in the read-only peer view only watched nodes open, otherwise only
      unlocked ones. */
  function OpensPopup(byId: map<string, Project>, id: string, readonly: bool, watched: set<string>): bool {
    if id !in byId then false
    else if readonly && id !in watched then false
    else if !readonly && !IsUnlocked(byId[id], watched) then false
    else true
  }

  /** Over a catalog without duplicate ids, the guard opens exactly the catalog
      nodes that are watched (read-only) or unlocked (otherwise). */
  lemma OpensPopupRule(ps: seq<Project>, id: string, readonly: bool, watched: set<string>)
    requires DistinctIds(ps)
    ensures OpensPopup(ById(ps), id, readonly, watched) <==>
      exists i :: 0 <= i < |ps| && ps[i].id == id &&
        (if readonly then id in watched else IsUnlocked(ps[i], watched))
  {
    if exists i :: 0 <= i < |ps| && ps[i].id == id {
      var i :| 0 <= i < |ps| && ps[i].id == id;
      ByIdFinds(ps, i);
    }
  }

  // ---------------------------------------------------------------------
  // The renderer

  class MapRenderer {
    /** The spacing constants chosen at load. */
    const cfg: Config
    /** `nodeElements`: element by project id. */
    var nodeElements: map<string, NodeElement>
    /** The drawn arrows as (parent id, child id). */
    var arrows: seq<(string, string)>
    /** `pendingCenterTarget`; `None` is `null`. */
    var pendingCenterTarget: Option<string>
    /** The map container's `style.width` and `style.height`, in pixels. */
    var width: int
    var height: int
    /** `mapContainer.dataset.phase`. */
    var phase: int
    /** Whether the nodes container has the `readonly` class (peer view). */
    var readonly: bool

    /** Every element is filed under its own id. */
    predicate Valid()
      reads this
    {
      forall k :: k in nodeElements ==> nodeElements[k].id == k
    }

    constructor (cfg: Config)
      ensures Valid() && this.cfg == cfg && nodeElements == map[] && arrows == []
      ensures pendingCenterTarget == None && width == 0 && height == 0 && phase == 0 && !readonly
    {
      this.cfg := cfg;
      nodeElements := map[];
      arrows := [];
      pendingCenterTarget := None;
      width := 0;
      height := 0;
      phase := 0;
      readonly := false;
    }

    /** updateContainerSize (script.js:335-348). */
    method UpdateContainerSize(b: Bounds)
      modifies this`width, this`height
      ensures width == ContainerWidth(b, cfg) && height == ContainerHeight(b, cfg)
    {
      width := (b.maxX - b.minX) * cfg.hSpacing + cfg.nodeWidth;
      height := (b.maxY - b.minY) * cfg.vSpacing + cfg.nodeHeight;
    }

    /** The first loop of renderNodes (script.js:357-362): drop every element whose
        id is not in `keep`. */
    method RemoveStale(keep: set<string>)
      requires Valid()
      modifies this`nodeElements
      ensures Valid()
      ensures nodeElements.Keys == old(nodeElements).Keys * keep
      ensures forall k :: k in nodeElements ==> nodeElements[k] == old(nodeElements)[k]
    {
      var existing := nodeElements.Keys;
      while existing != {}
        decreases |existing|
        invariant Valid()
        invariant forall k :: k in nodeElements <==> k in old(nodeElements) && (k in existing || k in keep)
        invariant forall k :: k in nodeElements ==> nodeElements[k] == old(nodeElements)[k]
      {
        var id :| id in existing;
        if id !in keep {
          nodeElements := nodeElements - {id};
        }
        existing := existing - {id};
      }
    }

    /** updateNodeState (script.js:408-414). */
    static method UpdateNodeState(n: NodeElement, p: Project, st: WatchState)
      modifies n
      ensures n.watched == st.IsWatched(p.id) && n.locked == !IsUnlocked(p, st.Watched())
      ensures n.left == old(n.left) && n.top == old(n.top)
    {
      n.watched := st.IsWatched(p.id);
      n.locked := !IsUnlocked(p, st.Watched());
    }

    /** The second loop of renderNodes (script.js:364-377): move and restyle the
        element of every visible project, creating the missing ones. */
    method PlaceVisible(st: WatchState, ps: seq<Project>, b: Bounds)
      requires Valid() && DistinctIds(ps)
      requires forall k :: k in nodeElements ==> k in VisibleIds(ps, st.Watched())
      modifies this`nodeElements, nodeElements.Values
      ensures Valid()
      ensures nodeElements.Keys == VisibleIds(ps, st.Watched())
      ensures forall k :: k in old(nodeElements) ==> nodeElements[k] == old(nodeElements)[k]
      ensures forall k :: k in nodeElements && k !in old(nodeElements) ==> fresh(nodeElements[k])
      ensures forall i :: 0 <= i < |ps| && IsVisible(ps[i], st.Watched()) ==>
        Shows(nodeElements[ps[i].id], ps[i], st.Watched(), b, cfg)
    {
      var w := st.Watched();
      PlaceEach(st, w, ps, b);
      VisibleIdsUpToPrefix(ps, |ps|, w);
      assert ps[..|ps|] == ps;
      assert old(nodeElements).Keys <= VisibleIds(ps, w);
    }

    /** The loop itself, for the watched set `w`: the element table gains the
        visible ids, one project at a time. */
    method PlaceEach(st: WatchState, w: set<string>, ps: seq<Project>, b: Bounds)
      requires Valid() && DistinctIds(ps) && w == st.Watched()
      modifies this`nodeElements, nodeElements.Values
      ensures Valid()
      ensures nodeElements.Keys == old(nodeElements).Keys + VisibleIdsUpTo(ps, |ps|, w)
      ensures forall k :: k in old(nodeElements) ==> nodeElements[k] == old(nodeElements)[k]
      ensures forall k :: k in nodeElements && k !in old(nodeElements) ==> fresh(nodeElements[k])
      ensures forall j :: 0 <= j < |ps| && IsVisible(ps[j], w) ==>
        ps[j].id in nodeElements && Shows(nodeElements[ps[j].id], ps[j], w, b, cfg)
    {
      var i := 0;
      while i < |ps|
        invariant 0 <= i <= |ps|
        invariant Valid()
        invariant nodeElements.Keys == old(nodeElements).Keys + VisibleIdsUpTo(ps, i, w)
        invariant forall k :: k in old(nodeElements) ==> nodeElements[k] == old(nodeElements)[k]
        invariant forall k :: k in nodeElements && k !in old(nodeElements) ==> fresh(nodeElements[k])
        invariant forall o :: o in nodeElements.Values ==> o in old(nodeElements).Values || fresh(o)
        invariant forall j :: 0 <= j < i && IsVisible(ps[j], w) ==>
          ps[j].id in nodeElements && Shows(nodeElements[ps[j].id], ps[j], w, b, cfg)
      {
        PlaceAt(st, w, ps, b, i);
        i := i + 1;
      }
    }

    /** The body of that loop for the project at index `i`, with `w` the watched
        set: with the projects before it placed, the projects up to and including
        it are placed. */
    method PlaceAt(st: WatchState, w: set<string>, ps: seq<Project>, b: Bounds, i: nat)
      requires Valid() && DistinctIds(ps) && i < |ps| && w == st.Watched()
      requires forall j :: 0 <= j < i && IsVisible(ps[j], w) ==>
        ps[j].id in nodeElements && Shows(nodeElements[ps[j].id], ps[j], w, b, cfg)
      modifies this`nodeElements, nodeElements.Values
      ensures Valid()
      ensures nodeElements.Keys == old(nodeElements).Keys + (if IsVisible(ps[i], w) then {ps[i].id} else {})
      ensures forall k :: k in old(nodeElements) ==> nodeElements[k] == old(nodeElements)[k]
      ensures forall k :: k in nodeElements && k !in old(nodeElements) ==> fresh(nodeElements[k])
      ensures forall o :: o in nodeElements.Values ==> o in old(nodeElements).Values || fresh(o)
      ensures forall j :: 0 <= j <= i && IsVisible(ps[j], w) ==>
        ps[j].id in nodeElements && Shows(nodeElements[ps[j].id], ps[j], w, b, cfg)
    {
      var p := ps[i];
      if IsVisible(p, w) {
        PlaceOne(st, p, b);
        forall j | 0 <= j < i && IsVisible(ps[j], w)
          ensures Shows(nodeElements[ps[j].id], ps[j], w, b, cfg)
        {
          assert ps[j].id != p.id;
        }
      }
    }

    /** One iteration of that loop, for a visible project `p`: its element, old or
        new, shows it; every other element is left alone. */
    method PlaceOne(st: WatchState, p: Project, b: Bounds)
      requires Valid()
      modifies this`nodeElements, nodeElements.Values
      ensures Valid()
      ensures nodeElements.Keys == old(nodeElements).Keys + {p.id}
      ensures forall k :: k in old(nodeElements) ==> nodeElements[k] == old(nodeElements)[k]
      ensures p.id !in old(nodeElements) ==> fresh(nodeElements[p.id])
      ensures forall k :: k in old(nodeElements) && k != p.id ==> unchanged(nodeElements[k])
      ensures Shows(nodeElements[p.id], p, st.Watched(), b, cfg)
    {
      var pos := ToPixel(p.gridX, p.gridY, b, cfg);
      if p.id in nodeElements {
        var node := nodeElements[p.id];
        node.left := pos.x;
        node.top := pos.y;
        UpdateNodeState(node, p, st);
      } else {
        var node := new NodeElement(p.id, pos, st.IsWatched(p.id), !IsUnlocked(p, st.Watched()));
        nodeElements := nodeElements[p.id := node];
      }
    }

    /** renderNodes (script.js:350-382): afterwards there is exactly one element
        per visible project, at its pixel position and with its current classes;
        surviving ids keep their element and only new ids get a new one. */
    method RenderNodes(st: WatchState, ps: seq<Project>, b: Bounds)
      requires Valid() && DistinctIds(ps)
      modifies this`nodeElements, nodeElements.Values
      ensures Valid()
      ensures nodeElements.Keys == VisibleIds(ps, st.Watched())
      ensures forall k :: k in nodeElements && k in old(nodeElements) ==> nodeElements[k] == old(nodeElements)[k]
      ensures forall k :: k in nodeElements && k !in old(nodeElements) ==> fresh(nodeElements[k])
      ensures ShowsAll(nodeElements, ps, st.Watched(), b, cfg)
    {
      RemoveStale(VisibleIds(ps, st.Watched()));
      PlaceVisible(st, ps, b);
    }

    /** renderArrows (script.js:416-444): replace the arrows by one per drawn edge. */
    method RenderArrows(st: WatchState, ps: seq<Project>)
      modifies this`arrows
      ensures arrows == Edges(ps, |ps|, st.byId, st.unlocks, st.Watched(), nodeElements.Keys)
    {
      var w := st.Watched();
      var keys := nodeElements.Keys;
      arrows := [];
      var i := 0;
      while i < |ps|
        invariant 0 <= i <= |ps|
        invariant arrows == Edges(ps, i, st.byId, st.unlocks, w, keys)
      {
        var parent := ps[i];
        if IsVisible(parent, w) && parent.id in nodeElements && parent.id in st.unlocks {
          var children := st.unlocks[parent.id];
          var drawn: seq<(string, string)> := [];
          var j := 0;
          while j < |children|
            invariant 0 <= j <= |children|
            invariant drawn == EdgesFrom(st.byId, parent.id, children[..j], w, keys)
          {
            assert children[..j + 1][..j] == children[..j];
            var c := children[j];
            if c in st.byId && IsVisible(st.byId[c], w) && c in nodeElements {
              drawn := drawn + [(parent.id, c)];
            }
            j := j + 1;
          }
          assert children[..|children|] == children;
          arrows := arrows + drawn;
        }
        i := i + 1;
      }
    }

    /** setCenterTarget (script.js:501-503). */
    method SetCenterTarget(id: string)
      modifies this`pendingCenterTarget
      ensures pendingCenterTarget == Some(id)
    {
      pendingCenterTarget := Some(id);
    }

    /** centerOnTarget (script.js:505-523): consume the pending target and, when
        its element exists, request a scroll that centres it. `node` is the
        rectangle the browser reports for that element. */
    method CenterOnTarget(st: WatchState, current: Scroll, wrapper: Rect, node: Rect) returns (request: Option<Scroll>)
      requires st.Valid()
      modifies this`pendingCenterTarget
      ensures pendingCenterTarget == None
      ensures var target := CenterTargetId(old(pendingCenterTarget), LastWatchedId(st.data));
        request == if target in nodeElements then Some(ScrollTarget(current, node, wrapper)) else None
    {
      var targetId: string;
      if pendingCenterTarget.Some? && pendingCenterTarget.value != "" {
        targetId := pendingCenterTarget.value;
      } else {
        targetId := st.GetLastWatchedId();
      }
      pendingCenterTarget := None;
      if targetId !in nodeElements {
        return None;
      }
      var left := current.left + (node.left - wrapper.left) - wrapper.width / 2.0 + node.width / 2.0;
      var top := current.top + (node.top - wrapper.top) - wrapper.height / 2.0 + node.height / 2.0;
      request := Some(Scroll(if left < 0.0 then 0.0 else left, if top < 0.0 then 0.0 else top));
    }

    /** The body of render once bounds exist, with its animation-frame callback
        run straight after. */
    method Draw(st: WatchState, ps: seq<Project>, b: Bounds, current: Scroll, wrapper: Rect, node: Rect) returns (request: Option<Scroll>)
      requires Valid() && st.Valid() && DistinctIds(ps)
      modifies this, nodeElements.Values
      ensures Valid() && readonly == old(readonly)
      ensures width == ContainerWidth(b, cfg) && height == ContainerHeight(b, cfg)
      ensures nodeElements.Keys == VisibleIds(ps, st.Watched())
      ensures forall k :: k in nodeElements && k in old(nodeElements) ==> nodeElements[k] == old(nodeElements)[k]
      ensures forall k :: k in nodeElements && k !in old(nodeElements) ==> fresh(nodeElements[k])
      ensures ShowsAll(nodeElements, ps, st.Watched(), b, cfg)
      ensures phase == HighestUnlockedPhase(ps, st.Watched())
      ensures arrows == Edges(ps, |ps|, st.byId, st.unlocks, st.Watched(), VisibleIds(ps, st.Watched()))
      ensures pendingCenterTarget == None
      ensures request == if CenterTargetId(old(pendingCenterTarget), LastWatchedId(st.data)) in nodeElements
                         then Some(ScrollTarget(current, node, wrapper)) else None
    {
      UpdateContainerSize(b);
      RenderNodes(st, ps, b);
      phase := HighestUnlockedPhase(ps, st.Watched());
      RenderArrows(st, ps);
      request := CenterOnTarget(st, current, wrapper, node);
    }

    /** render (script.js:320-333): nothing happens when no node is visible. */
    method Render(st: WatchState, ps: seq<Project>, current: Scroll, wrapper: Rect, node: Rect) returns (request: Option<Scroll>)
      requires Valid() && st.Valid() && DistinctIds(ps) && st.Initialized(ps)
      modifies this, nodeElements.Values
      ensures Valid() && readonly == old(readonly)
      ensures GetBounds(ps, st.Watched()).None? ==>
        request == None && nodeElements == old(nodeElements) && arrows == old(arrows) &&
        pendingCenterTarget == old(pendingCenterTarget) && width == old(width) && height == old(height) &&
        phase == old(phase)
      ensures GetBounds(ps, st.Watched()).None? ==> unchanged(nodeElements.Values)
      ensures GetBounds(ps, st.Watched()).Some? ==>
        var b := GetBounds(ps, st.Watched()).value;
        width == ContainerWidth(b, cfg) && height == ContainerHeight(b, cfg) &&
        nodeElements.Keys == VisibleIds(ps, st.Watched()) &&
        (forall k :: k in nodeElements && k in old(nodeElements) ==> nodeElements[k] == old(nodeElements)[k]) &&
        (forall k :: k in nodeElements && k !in old(nodeElements) ==> fresh(nodeElements[k])) &&
        ShowsAll(nodeElements, ps, st.Watched(), b, cfg) &&
        phase == HighestUnlockedPhase(ps, st.Watched()) &&
        arrows == Edges(ps, |ps|, st.byId, st.unlocks, st.Watched(), VisibleIds(ps, st.Watched())) &&
        pendingCenterTarget == None &&
        request == (if CenterTargetId(old(pendingCenterTarget), LastWatchedId(st.data)) in nodeElements
                    then Some(ScrollTarget(current, node, wrapper)) else None)
    {
      var bounds := GetBounds(ps, st.Watched());
      if bounds.None? {
        return None;
      }
      request := Draw(st, ps, bounds.value, current, wrapper, node);
    }

    /** The `readonly` class of the nodes container, added when the peer view
        opens (script.js:1057) and removed when it closes (script.js:1052). */
    method SetReadonly(on: bool)
      modifies this`readonly
      ensures readonly == on
    {
      readonly := on;
    }

    /** The click handler (script.js:300-317) on the node with `id`: whether it
        opens the popup. */
    method Click(st: WatchState, id: string) returns (opens: bool)
      ensures opens == OpensPopup(st.byId, id, readonly, st.Watched())
    {
      if id !in st.byId {
        return false;
      }
      if readonly && !st.IsWatched(id) {
        return false;
      }
      if !readonly && !IsUnlocked(st.byId[id], st.Watched()) {
        return false;
      }
      return true;
    }
  }

  /** viewFriendProgress (script.js:1021-1058) once the peer's entries arrived:
      the own map is kept aside, the peer's entries are shown and the map turns
      read-only, so a click opens exactly the catalog nodes the peer watched. */
  method EnterPeerView(st: WatchState, r: MapRenderer, peer: seq<ServerEntry>) returns (saved: ProgressMap)
    requires st.Valid()
    modifies st`data, r`readonly
    ensures saved == old(st.data) && st.Valid() && st.data == DecodeServer(Empty, peer) && r.readonly
    ensures forall id :: OpensPopup(st.byId, id, r.readonly, st.Watched()) <==>
      id in st.byId && id in DecodeServer(Empty, peer).entries
  {
    saved := st.BeginPeerView(peer);
    r.SetReadonly(true);
  }

  /** The exit button of the peer view (script.js:1047-1053): the own map comes
      back and the map is no longer read-only. */
  method ExitPeerView(st: WatchState, r: MapRenderer, saved: ProgressMap)
    requires saved.Valid()
    modifies st`data, r`readonly
    ensures st.Valid() && st.data == saved && !r.readonly
    ensures forall id :: OpensPopup(st.byId, id, r.readonly, st.Watched()) <==>
      id in st.byId && IsUnlocked(st.byId[id], saved.Keys())
  {
    st.EndPeerView(saved);
    r.SetReadonly(false);
  }
}
