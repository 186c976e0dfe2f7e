/** Concrete consequences of the catalog for single nodes and for the phase
    selector: which phase a fresh or advanced state opens, and how the phase and
    prerequisite gates of two particular nodes disagree. */
module CatalogNodes {
  import opened Wrappers
  import opened Catalog
  import opened Graph
  import opened CatalogFacts

  /** With nothing watched only phase 1 is open, in any catalog with a phase-1 node. */
  lemma HighestPhaseWhenFresh(ps: seq<Project>, i: nat)
    requires i < |ps| && PhaseNum(ps[i]) == 1
    ensures HighestUnlockedPhase(ps, {}) == 1
  {
    assert IsPhaseUnlocked(ps[i], {});
  }

  /** On a fresh state only phase 1 is open. */
  lemma FreshHighestPhase()
    ensures HighestUnlockedPhase(Projects, {}) == 1
  {
    LabelParses(1);
    assert Projects[0].phase == PhaseLabels[0];
    HighestPhaseWhenFresh(Projects, 0);
  }

  /** A phase-unlocked node of phase `n`, where no node has a larger phase, makes
      `n` the highest unlocked phase. */
  lemma HighestPhaseAt(ps: seq<Project>, watched: set<string>, i: nat, n: int)
    requires i < |ps| && IsPhaseUnlocked(ps[i], watched) && PhaseNum(ps[i]) == n
    requires forall j :: 0 <= j < |ps| ==> PhaseNum(ps[j]) <= n
    ensures HighestUnlockedPhase(ps, watched) == n
  {
  }

  /** echo, the first phase-6 entry (projects.js:57), as the catalog lists it. */
  lemma EchoIsPhase6()
    ensures Projects[44] == Phase6Projects[0] && PhaseNum(Phase6Projects[0]) == 6
  {
    var p := Phase6Projects[0];
    assert p.phase == PhaseLabels[5];
    LabelParses(6);
  }

  /** Watching loki2 opens phase 6, the highest there is. */
  lemma Loki2OpensPhase6(watched: set<string>)
    requires "loki2" in watched
    ensures HighestUnlockedPhase(Projects, watched) == 6
  {
    PhasesInRange();
    EchoIsPhase6();
    HighestPhaseAt(Projects, watched, 44, 6);
  }

  // ---------------------------------------------------------------------
  // Two nodes whose phase and prerequisites disagree

  /** avengers1 (projects.js:8) is in phase 1 with prerequisites thor1, cap1 and
      hulk, so it is unlocked at all times but, unless watched, shown only once
      all three are watched; watching it opens phase 2. */
  lemma Avengers1Gates(watched: set<string>)
    ensures Phase1Projects[5].id == "avengers1" && PhaseNum(Phase1Projects[5]) == 1
    ensures IsUnlocked(Phase1Projects[5], watched)
    ensures IsVisible(Phase1Projects[5], watched) <==>
      "avengers1" in watched || ("thor1" in watched && "cap1" in watched && "hulk" in watched)
    ensures PhaseUnlocker(2) == Some(Phase1Projects[5].id)
  {
    Avengers1Phase(watched);
    Avengers1Shown(watched);
  }

  lemma Avengers1Phase(watched: set<string>)
    ensures PhaseNum(Phase1Projects[5]) == 1 && IsUnlocked(Phase1Projects[5], watched)
  {
    LabelParses(1);
    assert Phase1Projects[5].phase == PhaseLabels[0];
  }

  lemma Avengers1Shown(watched: set<string>)
    ensures IsVisible(Phase1Projects[5], watched) <==>
      "avengers1" in watched || ("thor1" in watched && "cap1" in watched && "hulk" in watched)
  {
    var pre := Phase1Projects[5].prerequisites;
    assert pre == ["thor1", "cap1", "hulk"];
    assert AllWatched(pre, watched) <==> pre[0] in watched && pre[1] in watched && pre[2] in watched;
  }

  /** A node without prerequisites is always shown, and from phase 2 on it is
      unlocked exactly when its phase unlocker is watched. */
  lemma RootGates(p: Project, watched: set<string>)
    requires p.prerequisites == [] && PhaseNum(p) > 1
    ensures IsVisible(p, watched)
    ensures IsUnlocked(p, watched) <==>
      PhaseUnlocker(PhaseNum(p)).Some? && PhaseUnlocker(PhaseNum(p)).value in watched
  {
  }

  /** doctorstrange (projects.js:20) is in phase 3 without prerequisites: it is
      shown on every state, but unlocked only once ageofultron, the phase-3
      unlocker, is watched. */
  lemma DoctorStrangeGates(watched: set<string>)
    ensures Phase3Projects[1].id == "doctorstrange" && PhaseNum(Phase3Projects[1]) == 3
    ensures IsVisible(Phase3Projects[1], watched)
    ensures IsUnlocked(Phase3Projects[1], watched) <==> "ageofultron" in watched
  {
    var p := Phase3Projects[1];
    DoctorStrangePhase();
    RootGates(p, watched);
  }

  lemma DoctorStrangePhase()
    ensures PhaseNum(Phase3Projects[1]) == 3
  {
    var p := Phase3Projects[1];
    assert p.phase == PhaseLabels[2];
    LabelParses(3);
  }
}
