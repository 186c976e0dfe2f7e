/** The coordinate mapper (script.js:4-21, 258-278, 335-348): bounds of the
    visible grid, the grid-to-pixel offset and the container extent. The
    spacing constants are a parameter, since script.js:15-21 picks them by a
    media query. */
module Layout {
  import opened Wrappers
  import opened Catalog
  import opened Graph

  datatype Config = Config(hSpacing: int, vSpacing: int, nodeWidth: int, nodeHeight: int)

  /** script.js:5-8. */
  const DesktopConfig: Config := Config(160, 220, 120, 180)

  /** script.js:17-20, chosen when the viewport is at most 640px wide. */
  const MobileConfig: Config := Config(100, 140, 75, 110)

  function ConfigFor(isMobile: bool): Config {
    if isMobile then MobileConfig else DesktopConfig
  }

  predicate NonNegative(cfg: Config) {
    cfg.hSpacing >= 0 && cfg.vSpacing >= 0 && cfg.nodeWidth >= 0 && cfg.nodeHeight >= 0
  }

  datatype Bounds = Bounds(minX: int, maxX: int, minY: int, maxY: int)

  datatype Point = Point(x: int, y: int)

  /** `Math.min(...xs)` over a non-empty list. */
  function MinOf(xs: seq<int>): (m: int)
    requires |xs| > 0
    ensures m in xs && forall i :: 0 <= i < |xs| ==> m <= xs[i]
  {
    if |xs| == 1 then xs[0]
    else
      var rest := MinOf(xs[1..]);
      assert forall i :: 1 <= i < |xs| ==> xs[i] == xs[1..][i - 1];
      if xs[0] <= rest then xs[0] else rest
  }

  /** `Math.max(...xs)` over a non-empty list. */
  function MaxOf(xs: seq<int>): (m: int)
    requires |xs| > 0
    ensures m in xs && forall i :: 0 <= i < |xs| ==> xs[i] <= m
  {
    if |xs| == 1 then xs[0]
    else
      var rest := MaxOf(xs[1..]);
      assert forall i :: 1 <= i < |xs| ==> xs[i] == xs[1..][i - 1];
      if xs[0] >= rest then xs[0] else rest
  }

  function GridXs(ps: seq<Project>): (xs: seq<int>)
    ensures |xs| == |ps| && forall i :: 0 <= i < |ps| ==> xs[i] == ps[i].gridX
  {
    if ps == [] then [] else [ps[0].gridX] + GridXs(ps[1..])
  }

  function GridYs(ps: seq<Project>): (ys: seq<int>)
    ensures |ys| == |ps| && forall i :: 0 <= i < |ps| ==> ys[i] == ps[i].gridY
  {
    if ps == [] then [] else [ps[0].gridY] + GridYs(ps[1..])
  }

  /** `b` is the tight bounding box of the grid coordinates of `vs`. */
  predicate Encloses(b: Bounds, vs: seq<Project>) {
    (forall i :: 0 <= i < |vs| ==> b.minX <= vs[i].gridX <= b.maxX && b.minY <= vs[i].gridY <= b.maxY) &&
    (exists i :: 0 <= i < |vs| && vs[i].gridX == b.minX) &&
    (exists i :: 0 <= i < |vs| && vs[i].gridX == b.maxX) &&
    (exists i :: 0 <= i < |vs| && vs[i].gridY == b.minY) &&
    (exists i :: 0 <= i < |vs| && vs[i].gridY == b.maxY)
  }

  function BoundsOf(vs: seq<Project>): (b: Bounds)
    requires |vs| > 0
    ensures Encloses(b, vs)
  {
    var xs, ys := GridXs(vs), GridYs(vs);
    var b := Bounds(MinOf(xs), MaxOf(xs), MinOf(ys), MaxOf(ys));
    ColumnsAttained(vs);
    RowsAttained(vs);
    b
  }

  /** The smallest and the largest column are those of some node. */
  lemma ColumnsAttained(vs: seq<Project>)
    requires |vs| > 0
    ensures exists i :: 0 <= i < |vs| && vs[i].gridX == MinOf(GridXs(vs))
    ensures exists i :: 0 <= i < |vs| && vs[i].gridX == MaxOf(GridXs(vs))
  {
    var xs := GridXs(vs);
    var i :| 0 <= i < |xs| && xs[i] == MinOf(xs);
    var j :| 0 <= j < |xs| && xs[j] == MaxOf(xs);
    assert vs[i].gridX == MinOf(xs) && vs[j].gridX == MaxOf(xs);
  }

  /** The smallest and the largest row are those of some node. */
  lemma RowsAttained(vs: seq<Project>)
    requires |vs| > 0
    ensures exists i :: 0 <= i < |vs| && vs[i].gridY == MinOf(GridYs(vs))
    ensures exists i :: 0 <= i < |vs| && vs[i].gridY == MaxOf(GridYs(vs))
  {
    var ys := GridYs(vs);
    var i :| 0 <= i < |ys| && ys[i] == MinOf(ys);
    var j :| 0 <= j < |ys| && ys[j] == MaxOf(ys);
    assert vs[i].gridY == MinOf(ys) && vs[j].gridY == MaxOf(ys);
  }

  /** getBounds (script.js:258-271): null when nothing is visible, otherwise the
      tight box around the visible nodes. */
  function GetBounds(ps: seq<Project>, watched: set<string>): (b: Option<Bounds>)
    ensures b.None? <==> VisibleProjects(ps, watched) == []
    ensures b.Some? ==> Encloses(b.value, VisibleProjects(ps, watched))
  {
    var vs := VisibleProjects(ps, watched);
    if vs == [] then None else Some(BoundsOf(vs))
  }

  /** Nothing is visible exactly when no catalog node passes isVisible. */
  lemma NoBoundsIffNothingVisible(ps: seq<Project>, watched: set<string>)
    ensures GetBounds(ps, watched).None? <==> forall p :: p in ps ==> !IsVisible(p, watched)
  {
    var vs := VisibleProjects(ps, watched);
    if vs != [] {
      assert vs[0] in vs;
    }
  }

  /** toPixel (script.js:275-278). */
  function ToPixel(gridX: int, gridY: int, b: Bounds, cfg: Config): Point {
    Point((gridX - b.minX) * cfg.hSpacing, (gridY - b.minY) * cfg.vSpacing)
  }

  /** The container extent of updateContainerSize (script.js:339-344). */
  function ContainerWidth(b: Bounds, cfg: Config): int {
    (b.maxX - b.minX) * cfg.hSpacing + cfg.nodeWidth
  }

  function ContainerHeight(b: Bounds, cfg: Config): int {
    (b.maxY - b.minY) * cfg.vSpacing + cfg.nodeHeight
  }

  lemma MulMono(a: int, b: int, k: int)
    requires 0 <= a <= b && k >= 0
    ensures 0 <= a * k <= b * k
  {
  }

  /** The arithmetic of one node inside a box: its pixel offset lies in the span,
      its footprint inside the container, and the box's extreme rows and columns
      touch the container's edges. */
  lemma PixelInBox(b: Bounds, cfg: Config, gx: int, gy: int)
    requires NonNegative(cfg)
    requires b.minX <= gx <= b.maxX && b.minY <= gy <= b.maxY
    ensures var pt := ToPixel(gx, gy, b, cfg);
      0 <= pt.x <= (b.maxX - b.minX) * cfg.hSpacing &&
      pt.x + cfg.nodeWidth <= ContainerWidth(b, cfg) &&
      0 <= pt.y <= (b.maxY - b.minY) * cfg.vSpacing &&
      pt.y + cfg.nodeHeight <= ContainerHeight(b, cfg) &&
      (gx == b.minX ==> pt.x == 0) && (gy == b.minY ==> pt.y == 0) &&
      (gx == b.maxX ==> pt.x + cfg.nodeWidth == ContainerWidth(b, cfg)) &&
      (gy == b.maxY ==> pt.y + cfg.nodeHeight == ContainerHeight(b, cfg))
  {
    MulMono(gx - b.minX, b.maxX - b.minX, cfg.hSpacing);
    MulMono(gy - b.minY, b.maxY - b.minY, cfg.vSpacing);
  }

  /** Every visible node's box lies inside the container, and the leftmost and
      topmost visible nodes sit at pixel 0: left and right get the same treatment. */
  lemma PlacementInContainer(ps: seq<Project>, watched: set<string>, cfg: Config, p: Project)
    requires NonNegative(cfg)
    requires GetBounds(ps, watched).Some?
    requires p in ps && IsVisible(p, watched)
    ensures var b := GetBounds(ps, watched).value;
      var pt := ToPixel(p.gridX, p.gridY, b, cfg);
      0 <= pt.x <= (b.maxX - b.minX) * cfg.hSpacing &&
      pt.x + cfg.nodeWidth <= ContainerWidth(b, cfg) &&
      0 <= pt.y <= (b.maxY - b.minY) * cfg.vSpacing &&
      pt.y + cfg.nodeHeight <= ContainerHeight(b, cfg) &&
      (p.gridX == b.minX ==> pt.x == 0) && (p.gridY == b.minY ==> pt.y == 0)
  {
    var b := GetBounds(ps, watched).value;
    var vs := VisibleProjects(ps, watched);
    assert p in vs;
    var i :| 0 <= i < |vs| && vs[i] == p;
    PixelInBox(b, cfg, p.gridX, p.gridY);
  }

  /** Some visible node lands on the left and on the right edge of the container
      (and likewise on the top and bottom edges). */
  lemma EdgesAreOccupied(ps: seq<Project>, watched: set<string>, cfg: Config)
    requires NonNegative(cfg)
    requires GetBounds(ps, watched).Some?
    ensures var b := GetBounds(ps, watched).value;
      (exists p :: p in ps && IsVisible(p, watched) && ToPixel(p.gridX, p.gridY, b, cfg).x == 0) &&
      (exists p :: p in ps && IsVisible(p, watched) && ToPixel(p.gridX, p.gridY, b, cfg).y == 0) &&
      (exists p :: p in ps && IsVisible(p, watched) &&
        ToPixel(p.gridX, p.gridY, b, cfg).x + cfg.nodeWidth == ContainerWidth(b, cfg)) &&
      (exists p :: p in ps && IsVisible(p, watched) &&
        ToPixel(p.gridX, p.gridY, b, cfg).y + cfg.nodeHeight == ContainerHeight(b, cfg))
  {
    ColumnsOccupied(ps, watched, cfg);
    RowsOccupied(ps, watched, cfg);
  }

  lemma ColumnsOccupied(ps: seq<Project>, watched: set<string>, cfg: Config)
    requires NonNegative(cfg)
    requires GetBounds(ps, watched).Some?
    ensures var b := GetBounds(ps, watched).value;
      (exists p :: p in ps && IsVisible(p, watched) && ToPixel(p.gridX, p.gridY, b, cfg).x == 0) &&
      (exists p :: p in ps && IsVisible(p, watched) &&
        ToPixel(p.gridX, p.gridY, b, cfg).x + cfg.nodeWidth == ContainerWidth(b, cfg))
  {
    var b := GetBounds(ps, watched).value;
    var vs := VisibleProjects(ps, watched);
    var l, r := ColumnEdges(b, vs, cfg);
    NodeOfVisible(ps, watched, l);
    NodeOfVisible(ps, watched, r);
  }

  lemma RowsOccupied(ps: seq<Project>, watched: set<string>, cfg: Config)
    requires NonNegative(cfg)
    requires GetBounds(ps, watched).Some?
    ensures var b := GetBounds(ps, watched).value;
      (exists p :: p in ps && IsVisible(p, watched) && ToPixel(p.gridX, p.gridY, b, cfg).y == 0) &&
      (exists p :: p in ps && IsVisible(p, watched) &&
        ToPixel(p.gridX, p.gridY, b, cfg).y + cfg.nodeHeight == ContainerHeight(b, cfg))
  {
    var b := GetBounds(ps, watched).value;
    var vs := VisibleProjects(ps, watched);
    var t, d := RowEdges(b, vs, cfg);
    NodeOfVisible(ps, watched, t);
    NodeOfVisible(ps, watched, d);
  }

  lemma NodeOfVisible(ps: seq<Project>, watched: set<string>, i: nat)
    requires i < |VisibleProjects(ps, watched)|
    ensures VisibleProjects(ps, watched)[i] in ps && IsVisible(VisibleProjects(ps, watched)[i], watched)
  {
    assert VisibleProjects(ps, watched)[i] in VisibleProjects(ps, watched);
  }

  /** In a tight box, the nodes on the leftmost and rightmost columns touch the
      container's left and right edges. */
  lemma ColumnEdges(b: Bounds, vs: seq<Project>, cfg: Config) returns (l: nat, r: nat)
    requires NonNegative(cfg) && Encloses(b, vs)
    ensures l < |vs| && ToPixel(vs[l].gridX, vs[l].gridY, b, cfg).x == 0
    ensures r < |vs| && ToPixel(vs[r].gridX, vs[r].gridY, b, cfg).x + cfg.nodeWidth == ContainerWidth(b, cfg)
  {
    l :| 0 <= l < |vs| && vs[l].gridX == b.minX;
    r :| 0 <= r < |vs| && vs[r].gridX == b.maxX;
    PixelInBox(b, cfg, vs[l].gridX, vs[l].gridY);
    PixelInBox(b, cfg, vs[r].gridX, vs[r].gridY);
  }

  /** Likewise for the top and bottom rows. */
  lemma RowEdges(b: Bounds, vs: seq<Project>, cfg: Config) returns (t: nat, d: nat)
    requires NonNegative(cfg) && Encloses(b, vs)
    ensures t < |vs| && ToPixel(vs[t].gridX, vs[t].gridY, b, cfg).y == 0
    ensures d < |vs| && ToPixel(vs[d].gridX, vs[d].gridY, b, cfg).y + cfg.nodeHeight == ContainerHeight(b, cfg)
  {
    t :| 0 <= t < |vs| && vs[t].gridY == b.minY;
    d :| 0 <= d < |vs| && vs[d].gridY == b.maxY;
    PixelInBox(b, cfg, vs[t].gridX, vs[t].gridY);
    PixelInBox(b, cfg, vs[d].gridX, vs[d].gridY);
  }
}
