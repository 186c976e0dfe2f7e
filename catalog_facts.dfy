/** Facts about the concrete catalog of projects.js and the phase-unlocker table
    of script.js:23-29. Each fact is checked on the seven literal chunks of the
    catalog separately and carried over to the whole array by general lemmas
    about concatenation, so that no single proof has to look at all 71 records. */
module CatalogFacts {
  import opened Wrappers
  import opened Digits
  import opened Catalog
  import opened Graph
  import opened Layout

  /** The ids of Phase1Projects, in order. */
  const Phase1Ids: seq<string> := [
    "ironman1", "ironman2", "hulk", "thor1", "cap1", "avengers1"]

  /** The ids of Phase2Projects, in order. */
  const Phase2Ids: seq<string> := [
    "ironman3", "thor2", "cap2", "guardians1", "ageofultron", "antman"]

  /** The ids of Phase3Projects, in order. */
  const Phase3Ids: seq<string> := [
    "civilwar", "doctorstrange", "guardians2", "spiderman1", "thor3", "blackpanther",
    "infinitywar", "antmanwasp", "captainmarvel", "endgame", "farfromhome"]

  /** The ids of Phase4Projects, in order. */
  const Phase4Ids: seq<string> := [
    "wandavision", "falconws", "loki1", "blackwidow", "shangchi", "eternals",
    "hawkeye", "whatif1", "nowayhome"]

  /** The ids of Phase5Projects, in order. */
  const Phase5Ids: seq<string> := [
    "moonknight", "drstrange2", "msmarvel", "thor4", "shehulk", "blackpanther2",
    "antman3", "guardiansholiday", "guardians3", "secretinvasion", "loki2",
    "themarvels"]

  /** The ids of Phase6Projects, in order. */
  const Phase6Ids: seq<string> := [
    "echo", "deadpool3", "whatif2", "whatif3", "xmen97", "marvelzombies", "agatha",
    "spidermananimated", "daredevilbornagain", "ironheart", "eyesofwakanda", "cap4",
    "thunderbolts", "fantasticfour"]

  /** The ids of NetflixProjects, in order. */
  const NetflixIds: seq<string> := [
    "daredevil1", "daredevil2", "daredevil3", "jessicajones1", "jessicajones2",
    "jessicajones3", "lukecage1", "lukecage2", "ironfist1", "ironfist2", "defenders",
    "punisher1", "punisher2"]

  /** The ids of the whole catalog, in order. */
  const CatalogIds: seq<string> :=
    Phase1Ids + Phase2Ids + Phase3Ids + Phase4Ids + Phase5Ids + Phase6Ids + NetflixIds

  // ---------------------------------------------------------------------
  // Chunk-wise reasoning

  /** `ids` lists the ids of `ps`, in order. */
  predicate IdsAre(ps: seq<Project>, ids: seq<string>) {
    |ps| == |ids| && forall j :: 0 <= j < |ps| ==> ps[j].id == ids[j]
  }

  lemma IdsAreConcat(a: seq<Project>, ai: seq<string>, b: seq<Project>, bi: seq<string>)
    requires IdsAre(a, ai) && IdsAre(b, bi)
    ensures IdsAre(a + b, ai + bi)
  {
  }

  lemma ChunkIdsEarly()
    ensures IdsAre(Phase1Projects, Phase1Ids) && IdsAre(Phase2Projects, Phase2Ids)
    ensures IdsAre(Phase3Projects, Phase3Ids) && IdsAre(Phase4Projects, Phase4Ids)
  {
  }

  lemma ChunkIdsLate()
    ensures IdsAre(Phase5Projects, Phase5Ids) && IdsAre(Phase6Projects, Phase6Ids)
    ensures IdsAre(NetflixProjects, NetflixIds)
  {
  }

  /** CatalogIds lists the ids of `projects`. */
  lemma CatalogIdList()
    ensures IdsAre(Projects, CatalogIds)
  {
    ChunkIdsEarly();
    ChunkIdsLate();
    IdsAreConcat(Phase1Projects, Phase1Ids, Phase2Projects, Phase2Ids);
    var ps, ids := Phase1Projects + Phase2Projects, Phase1Ids + Phase2Ids;
    IdsAreConcat(ps, ids, Phase3Projects, Phase3Ids);
    ps, ids := ps + Phase3Projects, ids + Phase3Ids;
    IdsAreConcat(ps, ids, Phase4Projects, Phase4Ids);
    ps, ids := ps + Phase4Projects, ids + Phase4Ids;
    IdsAreConcat(ps, ids, Phase5Projects, Phase5Ids);
    ps, ids := ps + Phase5Projects, ids + Phase5Ids;
    IdsAreConcat(ps, ids, Phase6Projects, Phase6Ids);
    ps, ids := ps + Phase6Projects, ids + Phase6Ids;
    IdsAreConcat(ps, ids, NetflixProjects, NetflixIds);
  }

  predicate Distinct(s: seq<string>) {
    forall i, j :: 0 <= i < j < |s| ==> s[i] != s[j]
  }

  predicate Disjoint(a: seq<string>, b: seq<string>) {
    forall i, j :: 0 <= i < |a| && 0 <= j < |b| ==> a[i] != b[j]
  }

  lemma DistinctConcat(a: seq<string>, b: seq<string>)
    requires Distinct(a) && Distinct(b) && Disjoint(a, b)
    ensures Distinct(a + b)
  {
  }

  lemma DisjointConcat(a: seq<string>, b: seq<string>, c: seq<string>)
    requires Disjoint(a, c) && Disjoint(b, c)
    ensures Disjoint(a + b, c)
  {
  }

  lemma FreshIdsEarly()
    ensures Distinct(Phase1Ids) && Distinct(Phase2Ids) && Disjoint(Phase1Ids, Phase2Ids)
  {
  }

  lemma FreshIdsPhase3()
    ensures Distinct(Phase3Ids) && Disjoint(Phase1Ids + Phase2Ids, Phase3Ids)
  {
  }

  lemma FreshIdsPhase4()
    ensures Distinct(Phase4Ids) && Disjoint(Phase1Ids + Phase2Ids + Phase3Ids, Phase4Ids)
  {
  }

  lemma FreshIdsPhase5()
    ensures Distinct(Phase5Ids)
  {
  }

  lemma FreshIdsPhase5Early()
    ensures Disjoint(Phase1Ids + Phase2Ids + Phase3Ids, Phase5Ids)
  {
  }

  lemma FreshIdsPhase5Late()
    ensures Disjoint(Phase4Ids, Phase5Ids)
  {
  }

  lemma FreshIdsPhase6()
    ensures Distinct(Phase6Ids)
  {
  }

  lemma FreshIdsPhase6Early()
    ensures Disjoint(Phase1Ids + Phase2Ids + Phase3Ids, Phase6Ids)
  {
  }

  lemma FreshIdsPhase6Late()
    ensures Disjoint(Phase4Ids, Phase6Ids) && Disjoint(Phase5Ids, Phase6Ids)
  {
  }

  lemma FreshIdsNetflix()
    ensures Distinct(NetflixIds) && Disjoint(Phase1Ids + Phase2Ids + Phase3Ids, NetflixIds)
  {
  }

  lemma FreshIdsNetflixLate()
    ensures Disjoint(Phase4Ids, NetflixIds) && Disjoint(Phase5Ids, NetflixIds) && Disjoint(Phase6Ids, NetflixIds)
  {
  }

  /** Every id in `projects` is distinct. */
  lemma CatalogIdsDistinct()
    ensures Distinct(CatalogIds)
    ensures DistinctIds(Projects)
  {
    FreshIdsEarly();
    FreshIdsPhase3();
    FreshIdsPhase4();
    FreshIdsPhase5();
    FreshIdsPhase5Early();
    FreshIdsPhase5Late();
    FreshIdsPhase6();
    FreshIdsPhase6Early();
    FreshIdsPhase6Late();
    FreshIdsNetflix();
    FreshIdsNetflixLate();
    var early := Phase1Ids + Phase2Ids + Phase3Ids;
    DistinctConcat(Phase1Ids, Phase2Ids);
    DistinctConcat(Phase1Ids + Phase2Ids, Phase3Ids);
    DistinctConcat(early, Phase4Ids);
    DisjointConcat(early, Phase4Ids, Phase5Ids);
    DistinctConcat(early + Phase4Ids, Phase5Ids);
    var mid := early + Phase4Ids + Phase5Ids;
    DisjointConcat(early, Phase4Ids, Phase6Ids);
    DisjointConcat(early + Phase4Ids, Phase5Ids, Phase6Ids);
    DistinctConcat(mid, Phase6Ids);
    DisjointConcat(early, Phase4Ids, NetflixIds);
    DisjointConcat(early + Phase4Ids, Phase5Ids, NetflixIds);
    DisjointConcat(mid, Phase6Ids, NetflixIds);
    DistinctConcat(mid + Phase6Ids, NetflixIds);
    CatalogIdList();
  }

  // ---------------------------------------------------------------------
  // References between entries

  /** Some entry of `ps` has the id `q`. */
  predicate Names(ps: seq<Project>, q: string) {
    exists j :: 0 <= j < |ps| && ps[j].id == q
  }

  lemma NamedIfListed(q: string)
    requires q in CatalogIds
    ensures Names(Projects, q)
  {
    CatalogIdList();
    var j :| 0 <= j < |CatalogIds| && CatalogIds[j] == q;
    assert Projects[j].id == q;
  }

  /** Every prerequisite of the entries of `c` is listed in `pool`. */
  predicate RefsIn(c: seq<Project>, pool: seq<string>) {
    forall i, k :: 0 <= i < |c| && 0 <= k < |c[i].prerequisites| ==> c[i].prerequisites[k] in pool
  }

  lemma RefsConcat(a: seq<Project>, b: seq<Project>, pool: seq<string>)
    requires RefsIn(a, pool) && RefsIn(b, pool)
    ensures RefsIn(a + b, pool)
  {
  }

  lemma ChunkRefsEarly()
    ensures RefsIn(Phase1Projects, CatalogIds) && RefsIn(Phase2Projects, CatalogIds)
  {
  }

  lemma ChunkRefsMiddle()
    ensures RefsIn(Phase3Projects, CatalogIds) && RefsIn(Phase4Projects, CatalogIds)
  {
  }

  lemma ChunkRefsPhase5()
    ensures RefsIn(Phase5Projects, CatalogIds)
  {
  }

  lemma ChunkRefsPhase6()
    ensures RefsIn(Phase6Projects, CatalogIds)
  {
  }

  lemma ChunkRefsNetflix()
    ensures RefsIn(NetflixProjects, CatalogIds)
  {
  }

  /** Every prerequisite id names a catalog entry. */
  lemma PrerequisitesNameEntries()
    ensures forall i, k :: 0 <= i < |Projects| && 0 <= k < |Projects[i].prerequisites| ==>
      Names(Projects, Projects[i].prerequisites[k])
  {
    ChunkRefsEarly();
    ChunkRefsMiddle();
    ChunkRefsPhase5();
    ChunkRefsPhase6();
    ChunkRefsNetflix();
    RefsConcat(Phase1Projects, Phase2Projects, CatalogIds);
    var ps := Phase1Projects + Phase2Projects;
    RefsConcat(ps, Phase3Projects, CatalogIds);
    ps := ps + Phase3Projects;
    RefsConcat(ps, Phase4Projects, CatalogIds);
    ps := ps + Phase4Projects;
    RefsConcat(ps, Phase5Projects, CatalogIds);
    ps := ps + Phase5Projects;
    RefsConcat(ps, Phase6Projects, CatalogIds);
    ps := ps + Phase6Projects;
    RefsConcat(ps, NetflixProjects, CatalogIds);
    forall i, k | 0 <= i < |Projects| && 0 <= k < |Projects[i].prerequisites|
      ensures Names(Projects, Projects[i].prerequisites[k])
    {
      NamedIfListed(Projects[i].prerequisites[k]);
    }
  }

  /** Every PHASE_UNLOCKERS value names a catalog entry. */
  lemma UnlockersNameEntries()
    ensures forall n :: PhaseUnlocker(n).Some? ==> Names(Projects, PhaseUnlocker(n).value)
  {
    forall n | PhaseUnlocker(n).Some?
      ensures Names(Projects, PhaseUnlocker(n).value)
    {
      NamedIfListed(PhaseUnlocker(n).value);
    }
  }

  // ---------------------------------------------------------------------
  // Phases

  /** The six phase labels the catalog uses. */
  const PhaseLabels: seq<PhaseValue> := [
    PhaseLabel("Phase 1"), PhaseLabel("Phase 2"), PhaseLabel("Phase 3"),
    PhaseLabel("Phase 4"), PhaseLabel("Phase 5"), PhaseLabel("Phase 6")]

  /** "Phase N" parses to N. */
  lemma LabelsParse()
    ensures forall m :: 0 <= m < |PhaseLabels| ==> ParsePhase(PhaseLabels[m]) == m + 1
  {
    forall m | 0 <= m < |PhaseLabels|
      ensures ParsePhase(PhaseLabels[m]) == m + 1
    {
      LabelParses(m + 1);
    }
  }

  lemma LabelParses(n: nat)
    requires 1 <= n <= 6
    ensures ParsePhase(PhaseLabels[n - 1]) == n
  {
    var prefix := "Phase ";
    assert NoDigits(prefix);
    var digits := Decimal(n);
    assert digits == [DigitChar(n)];
    ParsePhaseOfLabel(prefix, n, "");
    assert prefix + digits + "" == PhaseLabels[n - 1].text;
  }

  /** Every entry of `c` carries one of the six labels. */
  predicate PhasesIn(c: seq<Project>) {
    forall j :: 0 <= j < |c| ==> c[j].phase in PhaseLabels
  }

  lemma PhasesConcat(a: seq<Project>, b: seq<Project>)
    requires PhasesIn(a) && PhasesIn(b)
    ensures PhasesIn(a + b)
  {
  }

  lemma ChunkPhasesEarly()
    ensures PhasesIn(Phase1Projects) && PhasesIn(Phase2Projects) && PhasesIn(Phase3Projects)
  {
  }

  lemma ChunkPhasesMiddle()
    ensures PhasesIn(Phase4Projects) && PhasesIn(Phase5Projects)
  {
  }

  lemma ChunkPhasesLate()
    ensures PhasesIn(Phase6Projects) && PhasesIn(NetflixProjects)
  {
  }

  /** Every node has `phaseNum` in 1..6, and every phase above 1 has an unlocker. */
  lemma PhasesInRange()
    ensures forall i :: 0 <= i < |Projects| ==>
      1 <= PhaseNum(Projects[i]) <= 6 && (PhaseNum(Projects[i]) > 1 ==> PhaseUnlocker(PhaseNum(Projects[i])).Some?)
  {
    CatalogPhases();
    LabelledInRange(Projects);
  }

  lemma CatalogPhases()
    ensures PhasesIn(Projects)
  {
    ChunkPhasesEarly();
    ChunkPhasesMiddle();
    ChunkPhasesLate();
    PhasesConcat(Phase1Projects, Phase2Projects);
    var ps := Phase1Projects + Phase2Projects;
    PhasesConcat(ps, Phase3Projects);
    ps := ps + Phase3Projects;
    PhasesConcat(ps, Phase4Projects);
    ps := ps + Phase4Projects;
    PhasesConcat(ps, Phase5Projects);
    ps := ps + Phase5Projects;
    PhasesConcat(ps, Phase6Projects);
    ps := ps + Phase6Projects;
    PhasesConcat(ps, NetflixProjects);
  }

  /** Nodes carrying one of the six labels have a phase in 1..6 with an unlocker
      above phase 1. */
  lemma LabelledInRange(ps: seq<Project>)
    requires PhasesIn(ps)
    ensures forall i :: 0 <= i < |ps| ==>
      1 <= PhaseNum(ps[i]) <= 6 && (PhaseNum(ps[i]) > 1 ==> PhaseUnlocker(PhaseNum(ps[i])).Some?)
  {
    forall i | 0 <= i < |ps|
      ensures 1 <= PhaseNum(ps[i]) <= 6 && (PhaseNum(ps[i]) > 1 ==> PhaseUnlocker(PhaseNum(ps[i])).Some?)
    {
      var m :| 0 <= m < |PhaseLabels| && PhaseLabels[m] == ps[i].phase;
      LabelParses(m + 1);
    }
  }

  // ---------------------------------------------------------------------
  // The fresh map

  /** The nodes a fresh state shows: the start node and every node without
      prerequisites. */
  const FreshVisibleIds: set<string> :=
    {"ironman1", "guardians1", "doctorstrange", "moonknight", "xmen97", "spidermananimated", "fantasticfour"}

  /** A node is shown on a fresh state exactly when it is the start node or has
      no prerequisites. */
  lemma FreshVisibility(p: Project)
    ensures IsVisible(p, {}) <==> p.id == StartNodeId || p.prerequisites == []
  {
    var none: set<string> := {};
    if p.prerequisites != [] {
      assert p.prerequisites[0] !in none;
    }
  }

  /** Every node of `c` that is the start node or has no prerequisites is one of
      FreshVisibleIds and lies in the box x in [-3, 4], y in [1, 21]. */
  predicate FreshInBox(c: seq<Project>) {
    forall j :: 0 <= j < |c| && (c[j].id == StartNodeId || c[j].prerequisites == []) ==>
      c[j].id in FreshVisibleIds && -3 <= c[j].gridX <= 4 && 1 <= c[j].gridY <= 21
  }

  lemma FreshConcat(a: seq<Project>, b: seq<Project>)
    requires FreshInBox(a) && FreshInBox(b)
    ensures FreshInBox(a + b)
  {
  }

  lemma ChunksFreshEarly()
    ensures FreshInBox(Phase1Projects) && FreshInBox(Phase2Projects)
  {
  }

  lemma ChunksFreshMiddle()
    ensures FreshInBox(Phase3Projects) && FreshInBox(Phase4Projects)
  {
  }

  lemma ChunksFreshLate()
    ensures FreshInBox(Phase5Projects) && FreshInBox(Phase6Projects)
  {
  }

  lemma ChunksFreshNetflix()
    ensures FreshInBox(NetflixProjects)
  {
  }

  lemma CatalogFreshInBox()
    ensures FreshInBox(Projects)
  {
    ChunksFreshEarly();
    ChunksFreshMiddle();
    ChunksFreshLate();
    ChunksFreshNetflix();
    FreshConcat(Phase1Projects, Phase2Projects);
    var ps := Phase1Projects + Phase2Projects;
    FreshConcat(ps, Phase3Projects);
    ps := ps + Phase3Projects;
    FreshConcat(ps, Phase4Projects);
    ps := ps + Phase4Projects;
    FreshConcat(ps, Phase5Projects);
    ps := ps + Phase5Projects;
    FreshConcat(ps, Phase6Projects);
    ps := ps + Phase6Projects;
    FreshConcat(ps, NetflixProjects);
  }

  /** Where the seven fresh nodes sit in `projects`. */
  lemma FreshNodes()
    ensures Projects[0].id == "ironman1" && Projects[9].id == "guardians1" && Projects[13].id == "doctorstrange"
    ensures Projects[32].id == "moonknight" && Projects[48].id == "xmen97"
    ensures Projects[51].id == "spidermananimated" && Projects[57].id == "fantasticfour"
    ensures Projects[9].prerequisites == [] && Projects[13].prerequisites == [] && Projects[32].prerequisites == []
    ensures Projects[48].prerequisites == [] && Projects[51].prerequisites == [] && Projects[57].prerequisites == []
    ensures Projects[13].gridX == -3 && Projects[32].gridX == 4 && Projects[0].gridY == 1 && Projects[57].gridY == 21
  {
  }

  /** A catalog whose start-or-root nodes are all in FreshVisibleIds shows, on a
      fresh state, nothing else. */
  lemma FreshShownWithin(ps: seq<Project>)
    requires FreshInBox(ps)
    ensures VisibleIds(ps, {}) <= FreshVisibleIds
  {
    forall p | p in ps && IsVisible(p, {})
      ensures p.id in FreshVisibleIds
    {
      FreshVisibility(p);
      var j :| 0 <= j < |ps| && ps[j] == p;
    }
  }

  /** With nothing watched, exactly the seven FreshVisibleIds are shown. */
  lemma FreshVisibleSet()
    ensures VisibleIds(Projects, {}) == FreshVisibleIds
  {
    CatalogFreshInBox();
    FreshShownWithin(Projects);
    FreshNodes();
    forall k | k in [0, 9, 13, 32, 48, 51, 57]
      ensures Projects[k] in Projects && IsVisible(Projects[k], {})
    {
      FreshVisibility(Projects[k]);
    }
  }

  /** The fresh box of a catalog whose start-or-root nodes lie in x in [-3, 4],
      y in [1, 21] and reach each of the four edges. */
  lemma FreshBoxOf(ps: seq<Project>, left: nat, right: nat, top: nat, bottom: nat)
    requires FreshInBox(ps)
    requires left < |ps| && right < |ps| && top < |ps| && bottom < |ps|
    requires ps[left].prerequisites == [] && ps[right].prerequisites == [] && ps[top].id == StartNodeId && ps[bottom].prerequisites == []
    requires ps[left].gridX == -3 && ps[right].gridX == 4 && ps[top].gridY == 1 && ps[bottom].gridY == 21
    ensures GetBounds(ps, {}) == Some(Bounds(-3, 4, 1, 21))
  {
    var vs := VisibleProjects(ps, {});
    FreshRootShown(ps, left);
    FreshRootShown(ps, right);
    FreshRootShown(ps, top);
    FreshRootShown(ps, bottom);
    FreshVisibleInBox(ps);
    TightBox(GetBounds(ps, {}).value, vs, ps[left], ps[right], ps[top], ps[bottom]);
  }

  lemma FreshRootShown(ps: seq<Project>, i: nat)
    requires i < |ps| && (ps[i].id == StartNodeId || ps[i].prerequisites == [])
    ensures ps[i] in VisibleProjects(ps, {})
  {
    FreshVisibility(ps[i]);
  }

  /** A tight box of nodes inside x in [-3, 4], y in [1, 21] that include nodes on
      all four of its edges is that box. */
  lemma TightBox(b: Bounds, vs: seq<Project>, l: Project, r: Project, t: Project, u: Project)
    requires Encloses(b, vs)
    requires forall i :: 0 <= i < |vs| ==> -3 <= vs[i].gridX <= 4 && 1 <= vs[i].gridY <= 21
    requires l in vs && r in vs && t in vs && u in vs
    requires l.gridX == -3 && r.gridX == 4 && t.gridY == 1 && u.gridY == 21
    ensures b == Bounds(-3, 4, 1, 21)
  {
  }

  lemma FreshVisibleInBox(ps: seq<Project>)
    requires FreshInBox(ps)
    ensures forall i :: 0 <= i < |VisibleProjects(ps, {})| ==>
      -3 <= VisibleProjects(ps, {})[i].gridX <= 4 && 1 <= VisibleProjects(ps, {})[i].gridY <= 21
  {
    var vs := VisibleProjects(ps, {});
    forall i | 0 <= i < |vs|
      ensures -3 <= vs[i].gridX <= 4 && 1 <= vs[i].gridY <= 21
    {
      assert vs[i] in vs;
      FreshVisibility(vs[i]);
      var j :| 0 <= j < |ps| && ps[j] == vs[i];
    }
  }

  /** A fresh map spans x in [-3, 4] and y in [1, 21]. */
  lemma FreshBounds()
    ensures GetBounds(Projects, {}) == Some(Bounds(-3, 4, 1, 21))
  {
    CatalogFreshInBox();
    FreshNodes();
    FreshBoxOf(Projects, 13, 32, 0, 57);
  }
}
