/** Graph derivation (script.js:201-253): phase parsing, the inverse
    prerequisite adjacency, and the visibility and unlock predicates.
    "Watched" is membership in the key set of the progress map
    (`isWatched(id) = data.has(id)`, script.js:145), so every predicate
    here takes that key set as `watched`. */
module Graph {
  import opened Wrappers
  import opened Digits
  import opened Catalog

  // ---------------------------------------------------------------------
  // parsePhase (script.js:212-216)

  /** A number is kept; a label yields its first digit run; otherwise 1. */
  function ParsePhase(phase: PhaseValue): int {
    match phase
    case PhaseNumber(n) => n
    case PhaseLabel(text) =>
      var run := FirstDigitRun(text);
      if run.Some? then DigitsValue(run.value) else 1
  }

  lemma ParsePhaseOfNumber(n: int)
    ensures ParsePhase(PhaseNumber(n)) == n
  {
  }

  /** A label whose first digit run spells `n` parses to `n`. */
  lemma ParsePhaseOfLabel(prefix: string, n: nat, suffix: string)
    requires NoDigits(prefix)
    requires suffix == [] || !IsDigit(suffix[0])
    ensures ParsePhase(PhaseLabel(prefix + Decimal(n) + suffix)) == n
  {
    FirstDigitRunOf(prefix, Decimal(n), suffix);
    DecimalRoundTrip(n);
  }

  /** A label without any digit defaults to phase 1. */
  lemma ParsePhaseWithoutDigits(text: string)
    requires NoDigits(text)
    ensures ParsePhase(PhaseLabel(text)) == 1
  {
    FirstDigitRunSpec(text);
  }

  /** `p.phaseNum` as initProjects stamps it (script.js:205). */
  function PhaseNum(p: Project): int {
    ParsePhase(p.phase)
  }

  // ---------------------------------------------------------------------
  // Visibility and unlock (script.js:232-248)

  /** `ids.every(id => state.isWatched(id))`. */
  predicate AllWatched(ids: seq<string>, watched: set<string>) {
    forall i :: 0 <= i < |ids| ==> ids[i] in watched
  }

  predicate IsPhaseUnlocked(p: Project, watched: set<string>) {
    PhaseNum(p) == 1 ||
    (PhaseUnlocker(PhaseNum(p)).Some? && PhaseUnlocker(PhaseNum(p)).value in watched)
  }

  predicate IsUnlocked(p: Project, watched: set<string>) {
    if PhaseNum(p) == 1 then true
    else if !IsPhaseUnlocked(p, watched) then false
    else AllWatched(p.prerequisites, watched)
  }

  predicate IsVisible(p: Project, watched: set<string>) {
    p.id == StartNodeId || p.id in watched || AllWatched(p.prerequisites, watched)
  }

  /** The unlock rule, both phases: phase 1 is always open; a later phase needs its
      unlocker in the table and watched, and every prerequisite watched. */
  lemma UnlockRule(p: Project, watched: set<string>)
    ensures PhaseNum(p) == 1 ==> IsUnlocked(p, watched)
    ensures PhaseNum(p) != 1 ==>
      (IsUnlocked(p, watched) <==>
        PhaseUnlocker(PhaseNum(p)).Some? && PhaseUnlocker(PhaseNum(p)).value in watched &&
        forall i :: 0 <= i < |p.prerequisites| ==> p.prerequisites[i] in watched)
  {
  }

  /** The start node and every watched node are visible; any other node is
      visible exactly when all its prerequisites are watched. */
  lemma VisibilityRule(p: Project, watched: set<string>)
    ensures p.id == StartNodeId ==> IsVisible(p, watched)
    ensures p.id in watched ==> IsVisible(p, watched)
    ensures p.id != StartNodeId && p.id !in watched ==>
      (IsVisible(p, watched) <==> forall i :: 0 <= i < |p.prerequisites| ==> p.prerequisites[i] in watched)
  {
  }

  /** From phase 2 on, an unlocked node is visible. (Phase 1 is exempt: its nodes
      are unlocked unconditionally, see CatalogNodes.Avengers1Gates.) */
  lemma UnlockedImpliesVisible(p: Project, watched: set<string>)
    requires PhaseNum(p) != 1
    requires IsUnlocked(p, watched)
    ensures IsVisible(p, watched)
  {
  }

  /** Watching more never hides or locks a node. */
  lemma Monotone(p: Project, watched: set<string>, more: set<string>)
    requires watched <= more
    ensures IsVisible(p, watched) ==> IsVisible(p, more)
    ensures IsUnlocked(p, watched) ==> IsUnlocked(p, more)
  {
  }

  // ---------------------------------------------------------------------
  // Catalog-wide views

  predicate DistinctIds(ps: seq<Project>) {
    forall i, j :: 0 <= i < j < |ps| ==> ps[i].id != ps[j].id
  }

  /** `projects.filter(isVisible)`, in catalog order. */
  function VisibleProjects(ps: seq<Project>, watched: set<string>): (r: seq<Project>)
    ensures |r| <= |ps|
    ensures forall p :: p in r <==> p in ps && IsVisible(p, watched)
  {
    if ps == [] then []
    else (if IsVisible(ps[0], watched) then [ps[0]] else []) + VisibleProjects(ps[1..], watched)
  }

  /** The ids of the visible nodes, as `new Set(visible.map(p => p.id))` (script.js:355). */
  function VisibleIds(ps: seq<Project>, watched: set<string>): set<string> {
    set p | p in ps && IsVisible(p, watched) :: p.id
  }

  /** Extending the scanned prefix by one node adds that node's id when it is visible. */
  lemma VisibleIdsSnoc(ps: seq<Project>, p: Project, watched: set<string>)
    ensures VisibleIds(ps + [p], watched) ==
      VisibleIds(ps, watched) + (if IsVisible(p, watched) then {p.id} else {})
  {
    var l := VisibleIds(ps + [p], watched);
    var r := VisibleIds(ps, watched) + (if IsVisible(p, watched) then {p.id} else {});
    forall k | k in l ensures k in r {
      var q :| q in ps + [p] && IsVisible(q, watched) && q.id == k;
      if q != p { assert q in ps; }
    }
    forall k | k in r ensures k in l {
      if k in VisibleIds(ps, watched) {
        var q :| q in ps && IsVisible(q, watched) && q.id == k;
        assert q in ps + [p];
      } else {
        assert p in ps + [p];
      }
    }
  }

  /** The visible ids among the first `n` nodes, one node at a time. */
  function VisibleIdsUpTo(ps: seq<Project>, n: nat, watched: set<string>): set<string>
    requires n <= |ps|
  {
    if n == 0 then {}
    else VisibleIdsUpTo(ps, n - 1, watched) + (if IsVisible(ps[n - 1], watched) then {ps[n - 1].id} else {})
  }

  lemma {:induction false} VisibleIdsUpToPrefix(ps: seq<Project>, n: nat, watched: set<string>)
    requires n <= |ps|
    ensures VisibleIdsUpTo(ps, n, watched) == VisibleIds(ps[..n], watched)
  {
    if n == 0 {
      assert ps[..0] == [];
    } else {
      VisibleIdsUpToPrefix(ps, n - 1, watched);
      assert ps[..n] == ps[..n - 1] + [ps[n - 1]];
      VisibleIdsSnoc(ps[..n - 1], ps[n - 1], watched);
    }
  }

  /** `p.unlocks` (script.js:206-208): the ids of the projects listing `id` as a
      prerequisite, in catalog order. */
  function Unlocks(ps: seq<Project>, id: string): (r: seq<string>)
    ensures |r| <= |ps|
    ensures forall x :: x in r <==> exists j :: 0 <= j < |ps| && ps[j].id == x && id in ps[j].prerequisites
  {
    if ps == [] then []
    else
      var init := ps[..|ps| - 1];
      var last := ps[|ps| - 1];
      var rest := Unlocks(init, id);
      assert forall j :: 0 <= j < |ps| - 1 ==> ps[j] == init[j];
      rest + (if id in last.prerequisites then [last.id] else [])
  }

  /** The `unlocks` table initProjects leaves for `ps`. */
  predicate UnlocksTableFor(unlocks: map<string, seq<string>>, ps: seq<Project>) {
    forall i :: 0 <= i < |ps| ==> ps[i].id in unlocks && unlocks[ps[i].id] == Unlocks(ps, ps[i].id)
  }

  /** The adjacency is the inverse of the prerequisite relation, in both directions. */
  lemma UnlocksInverse(ps: seq<Project>, a: Project, b: Project)
    requires a in ps && b in ps
    ensures b.id in Unlocks(ps, a.id) <== a.id in b.prerequisites
    ensures DistinctIds(ps) ==> (b.id in Unlocks(ps, a.id) ==> a.id in b.prerequisites)
  {
  }

  /** `new Map(projects.map(p => [p.id, p]))` (script.js:202): the last record with
      an id wins. */
  function ById(ps: seq<Project>): (m: map<string, Project>)
    ensures forall i :: 0 <= i < |ps| ==> ps[i].id in m
    ensures forall k :: k in m ==> m[k].id == k && m[k] in ps
  {
    if ps == [] then map[]
    else
      var last := ps[|ps| - 1];
      var m := ById(ps[..|ps| - 1])[last.id := last];
      assert forall i :: 0 <= i < |ps| - 1 ==> ps[i] == ps[..|ps| - 1][i];
      m
  }

  /** With distinct ids every record is found under its own id. */
  lemma ByIdFinds(ps: seq<Project>, i: int)
    requires DistinctIds(ps) && 0 <= i < |ps|
    ensures ById(ps)[ps[i].id] == ps[i]
  {
  }

  // ---------------------------------------------------------------------
  // getHighestUnlockedPhase (script.js:250-253)

  function MaxUnlockedPhase(ps: seq<Project>, watched: set<string>): (r: Option<int>)
    ensures r.None? <==> forall i :: 0 <= i < |ps| ==> !IsPhaseUnlocked(ps[i], watched)
    ensures r.Some? ==>
      (exists i :: 0 <= i < |ps| && IsPhaseUnlocked(ps[i], watched) && PhaseNum(ps[i]) == r.value) &&
      forall i :: 0 <= i < |ps| && IsPhaseUnlocked(ps[i], watched) ==> PhaseNum(ps[i]) <= r.value
  {
    if ps == [] then None
    else
      var rest := MaxUnlockedPhase(ps[1..], watched);
      assert forall i :: 0 < i < |ps| ==> ps[i] == ps[1..][i - 1];
      if !IsPhaseUnlocked(ps[0], watched) then rest
      else if rest.None? || PhaseNum(ps[0]) > rest.value then Some(PhaseNum(ps[0]))
      else rest
  }

  /** The largest phase number among phase-unlocked nodes, or 1 when there is none. */
  function HighestUnlockedPhase(ps: seq<Project>, watched: set<string>): int {
    MaxUnlockedPhase(ps, watched).GetOr(1)
  }
}
