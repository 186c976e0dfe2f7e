/** The immutable catalog of projects.js and the phase-unlocker table of
    script.js:23-29. */
module Catalog {
  import opened Wrappers

  /** A `phase` field: script.js:213 accepts a number as well as a label. */
  datatype PhaseValue = PhaseNumber(n: int) | PhaseLabel(text: string)

  /** A catalog record. An absent `prerequisites` array reads as `[]` (script.js:241). */
  datatype Project = Project(
    id: string,
    title: string,
    prerequisites: seq<string>,
    phase: PhaseValue,
    gridX: int,
    gridY: int)

  /** CONFIG.START_NODE_ID (script.js:10). */
  const StartNodeId: string := "ironman1"

  /** PHASE_UNLOCKERS (script.js:23-29): the id whose watching opens phase `n`. */
  function PhaseUnlocker(n: int): Option<string> {
    if n == 2 then Some("avengers1")
    else if n == 3 then Some("ageofultron")
    else if n == 4 then Some("endgame")
    else if n == 5 then Some("loki1")
    else if n == 6 then Some("loki2")
    else None
  }

  /** projects.js:3-8 (PHASE 1). */
  const Phase1Projects: seq<Project> := [
    Project("ironman1", "Iron Man", [], PhaseLabel("Phase 1"), 0, 1),
    Project("ironman2", "Iron Man 2", ["ironman1"], PhaseLabel("Phase 1"), 0, 2),
    Project("hulk", "The Incredible Hulk", ["ironman2"], PhaseLabel("Phase 1"), -2, 3),
    Project("thor1", "Thor", ["ironman2"], PhaseLabel("Phase 1"), -1, 3),
    Project("cap1", "Captain America: The First Avenger", ["ironman2"], PhaseLabel("Phase 1"), 2, 3),
    Project("avengers1", "The Avengers", ["thor1", "cap1", "hulk"], PhaseLabel("Phase 1"), 0, 4)
  ]

  /** projects.js:11-16 (PHASE 2). */
  const Phase2Projects: seq<Project> := [
    Project("ironman3", "Iron Man 3", ["avengers1"], PhaseLabel("Phase 2"), 0, 5),
    Project("thor2", "Thor: The Dark World", ["avengers1"], PhaseLabel("Phase 2"), -1, 5),
    Project("cap2", "Captain America: The Winter Soldier", ["avengers1"], PhaseLabel("Phase 2"), 2, 5),
    Project("guardians1", "Guardians of the Galaxy", [], PhaseLabel("Phase 2"), -2, 5),
    Project("ageofultron", "Avengers: Age of Ultron", ["ironman3", "thor2", "cap2"], PhaseLabel("Phase 2"), 0, 6),
    Project("antman", "Ant-Man", ["ageofultron"], PhaseLabel("Phase 2"), 3, 7)
  ]

  /** projects.js:19-29 (PHASE 3). */
  const Phase3Projects: seq<Project> := [
    Project("civilwar", "Captain America: Civil War", ["antman"], PhaseLabel("Phase 3"), 2, 8),
    Project("doctorstrange", "Doctor Strange", [], PhaseLabel("Phase 3"), -3, 8),
    Project("guardians2", "Guardians of the Galaxy Vol. 2", ["guardians1"], PhaseLabel("Phase 3"), -2, 8),
    Project("spiderman1", "Spider-Man: Homecoming", ["civilwar"], PhaseLabel("Phase 3"), 1, 9),
    Project("thor3", "Thor: Ragnarok", ["ageofultron"], PhaseLabel("Phase 3"), 1, 8),
    Project("blackpanther", "Black Panther", ["civilwar"], PhaseLabel("Phase 3"), 3, 9),
    Project("infinitywar", "Avengers: Infinity War", ["thor3", "blackpanther", "spiderman1", "guardians2", "doctorstrange"], PhaseLabel("Phase 3"), 0, 10),
    Project("antmanwasp", "Ant-Man and the Wasp", ["infinitywar"], PhaseLabel("Phase 3"), 2, 11),
    Project("captainmarvel", "Captain Marvel", ["infinitywar"], PhaseLabel("Phase 3"), -1, 11),
    Project("endgame", "Avengers: Endgame", ["antmanwasp", "captainmarvel"], PhaseLabel("Phase 3"), 0, 12),
    Project("farfromhome", "Spider-Man: Far From Home", ["endgame"], PhaseLabel("Phase 3"), -1, 13)
  ]

  /** projects.js:32-40 (PHASE 4). */
  const Phase4Projects: seq<Project> := [
    Project("wandavision", "WandaVision", ["endgame"], PhaseLabel("Phase 4"), 0, 14),
    Project("falconws", "The Falcon and the Winter Soldier", ["endgame"], PhaseLabel("Phase 4"), 6, 14),
    Project("loki1", "Loki", ["endgame"], PhaseLabel("Phase 4"), -5, 14),
    Project("blackwidow", "Black Widow", ["endgame"], PhaseLabel("Phase 4"), 5, 14),
    Project("shangchi", "Shang-Chi and the Legend of the Ten Rings", ["endgame"], PhaseLabel("Phase 4"), 2, 14),
    Project("eternals", "Eternals", ["endgame"], PhaseLabel("Phase 4"), 2, 14),
    Project("hawkeye", "Hawkeye", ["blackwidow"], PhaseLabel("Phase 4"), 3, 15),
    Project("whatif1", "What If...?", ["loki1"], PhaseLabel("Phase 4"), -4, 15),
    Project("nowayhome", "Spider-Man: No Way Home", ["farfromhome"], PhaseLabel("Phase 4"), -1, 14)
  ]

  /** projects.js:43-54 (PHASE 5). */
  const Phase5Projects: seq<Project> := [
    Project("moonknight", "Moon Knight", [], PhaseLabel("Phase 5"), 4, 16),
    Project("drstrange2", "Doctor Strange in the Multiverse of Madness", ["wandavision", "nowayhome"], PhaseLabel("Phase 5"), -1, 16),
    Project("msmarvel", "Ms. Marvel", ["endgame"], PhaseLabel("Phase 5"), 1, 16),
    Project("thor4", "Thor: Love and Thunder", ["endgame"], PhaseLabel("Phase 5"), -2, 16),
    Project("shehulk", "She-Hulk: Attorney at Law", ["endgame", "daredevil3"], PhaseLabel("Phase 5"), 3, 16),
    Project("blackpanther2", "Black Panther: Wakanda Forever", ["endgame"], PhaseLabel("Phase 5"), 2, 17),
    Project("antman3", "Ant-Man and the Wasp: Quantumania", ["loki1"], PhaseLabel("Phase 5"), -5, 17),
    Project("guardiansholiday", "The Guardians of the Galaxy Holiday Special", ["endgame"], PhaseLabel("Phase 5"), -3, 17),
    Project("guardians3", "Guardians of the Galaxy Vol. 3", ["guardiansholiday"], PhaseLabel("Phase 5"), -3, 18),
    Project("secretinvasion", "Secret Invasion", ["endgame"], PhaseLabel("Phase 5"), 2, 16),
    Project("loki2", "Loki (Season 2)", ["loki1"], PhaseLabel("Phase 5"), -6, 18),
    Project("themarvels", "The Marvels", ["msmarvel", "secretinvasion"], PhaseLabel("Phase 5"), 1, 18)
  ]

  /** projects.js:57-70 (PHASE 6 (released so far)). */
  const Phase6Projects: seq<Project> := [
    Project("echo", "Echo", ["hawkeye"], PhaseLabel("Phase 6"), 4, 19),
    Project("deadpool3", "Deadpool & Wolverine", ["loki2"], PhaseLabel("Phase 6"), -6, 19),
    Project("whatif2", "What If...? | Season 2", ["whatif1"], PhaseLabel("Phase 5"), -4, 19),
    Project("whatif3", "What If...? | Season 3", ["whatif2"], PhaseLabel("Phase 6"), -4, 20),
    Project("xmen97", "X-Men '97", [], PhaseLabel("Phase 5"), -3, 19),
    Project("marvelzombies", "Marvel Zombies", ["whatif2"], PhaseLabel("Phase 6"), -3, 20),
    Project("agatha", "Agatha All Along", ["wandavision"], PhaseLabel("Phase 5"), 0, 19),
    Project("spidermananimated", "Your Friendly Neighborhood Spider-Man", [], PhaseLabel("Phase 6"), -1, 19),
    Project("daredevilbornagain", "Daredevil: Born Again", ["shehulk"], PhaseLabel("Phase 6"), 3, 20),
    Project("ironheart", "Ironheart", ["blackpanther2"], PhaseLabel("Phase 6"), 1, 20),
    Project("eyesofwakanda", "Eyes of Wakanda", ["blackpanther2"], PhaseLabel("Phase 6"), 2, 20),
    Project("cap4", "Captain America: Brave New World", ["falconws"], PhaseLabel("Phase 6"), 6, 21),
    Project("thunderbolts", "Thunderbolts*", ["blackwidow", "falconws"], PhaseLabel("Phase 6"), 5, 21),
    Project("fantasticfour", "The Fantastic Four: First Steps", [], PhaseLabel("Phase 6"), 1, 21)
  ]

  /** projects.js:74-91 (the street-level series). */
  const NetflixProjects: seq<Project> := [
    Project("daredevil1", "Daredevil", ["ironman1"], PhaseLabel("Phase 1"), 5, 1),
    Project("daredevil2", "Daredevil | Season 2", ["daredevil1"], PhaseLabel("Phase 1"), 5, 2),
    Project("daredevil3", "Daredevil | Season 3", ["defenders"], PhaseLabel("Phase 1"), 5, 5),
    Project("jessicajones1", "Jessica Jones", ["daredevil1"], PhaseLabel("Phase 1"), 6, 2),
    Project("jessicajones2", "Jessica Jones | Season 2", ["defenders"], PhaseLabel("Phase 1"), 6, 5),
    Project("jessicajones3", "Jessica Jones | Season 3", ["jessicajones2"], PhaseLabel("Phase 1"), 6, 6),
    Project("lukecage1", "Luke Cage", ["jessicajones1"], PhaseLabel("Phase 1"), 7, 3),
    Project("lukecage2", "Luke Cage | Season 2", ["defenders"], PhaseLabel("Phase 1"), 7, 5),
    Project("ironfist1", "Iron Fist", ["daredevil2"], PhaseLabel("Phase 1"), 4, 3),
    Project("ironfist2", "Iron Fist | Season 2", ["defenders"], PhaseLabel("Phase 1"), 4, 5),
    Project("defenders", "The Defenders", ["daredevil2", "jessicajones1", "lukecage1", "ironfist1"], PhaseLabel("Phase 1"), 5, 4),
    Project("punisher1", "The Punisher", ["daredevil2"], PhaseLabel("Phase 1"), 8, 4),
    Project("punisher2", "The Punisher | Season 2", ["punisher1"], PhaseLabel("Phase 1"), 8, 5)
  ]

  /** The `projects` array of projects.js:1-93, in its own order. */
  const Projects: seq<Project> :=
    Phase1Projects + Phase2Projects + Phase3Projects + Phase4Projects +
    Phase5Projects + Phase6Projects + NetflixProjects
}
