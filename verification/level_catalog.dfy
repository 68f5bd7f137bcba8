/** The level records and the compiled-in software-engineering level catalog
    of src/components/LevelProgression.tsx. */
module LevelCatalog {
  import opened Wrappers

  /** A level's display status, stored on the catalog record itself. */
  datatype Status = Locked | Available | Completed

  datatype LevelKind = Theory | Practical | Project | Challenge

  datatype ResourceKind = Video | Document | Interactive | Code

  /** A learning resource; `duration` is optional. */
  datatype Resource = Resource(kind: ResourceKind, title: string, duration: Option<string>)

  /** A level card. TypeScript `number` fields are modelled as integers. */
  datatype Level = Level(
    id: int,
    title: string,
    cyberpunkName: string,
    description: string,
    xp: int,
    status: Status,
    kind: LevelKind,
    resources: seq<Resource>)

  /** The five-level catalog. Ids run 1..5 in order, every reward is
      positive, and only the first level starts out available. */
  function Catalog(): (levels: seq<Level>)
    ensures |levels| == 5
    ensures forall i :: 0 <= i < |levels| ==> levels[i].id == i + 1
    ensures forall i :: 0 <= i < |levels| ==> levels[i].xp > 0
    ensures levels[0].status == Available
    ensures forall i :: 1 <= i < |levels| ==> levels[i].status == Locked
  {
    [ Level(1, "Programming Fundamentals", "DEBUG_INIT",
            "Master the basics of programming logic and syntax", 100, Available, Theory,
            [ Resource(Video, "Variables and Data Types", Some("15 min")),
              Resource(Interactive, "Syntax Playground", Some("20 min")),
              Resource(Code, "First Program Challenge", None) ]),
      Level(2, "Version Control Mastery", "GIT_COMMIT",
            "Learn to manage code versions like a pro", 150, Locked, Practical,
            [ Resource(Video, "Git Fundamentals", Some("25 min")),
              Resource(Interactive, "Branch & Merge Simulator", Some("30 min")),
              Resource(Code, "Collaborative Coding Task", None) ]),
      Level(3, "Web Development Basics", "WEB_DEPLOY",
            "Build your first interactive web application", 200, Locked, Project,
            [ Resource(Document, "HTML/CSS/JS Guide", None),
              Resource(Video, "Building Modern UIs", Some("35 min")),
              Resource(Code, "Portfolio Project", None) ]),
      Level(4, "Database Integration", "DATA_LINK",
            "Connect your apps to persistent data storage", 250, Locked, Practical,
            [ Resource(Video, "Database Design Principles", Some("30 min")),
              Resource(Interactive, "SQL Playground", Some("40 min")),
              Resource(Code, "API Integration Challenge", None) ]),
      Level(5, "Advanced Algorithms", "ALGO_HACK",
            "Solve complex problems with elegant algorithms", 300, Locked, Challenge,
            [ Resource(Document, "Algorithm Patterns", None),
              Resource(Interactive, "Coding Interview Prep", Some("45 min")),
              Resource(Code, "Optimization Challenge", None) ]) ]
  }

  /** The first level of `levels` with the given id, if any. */
  function FindLevel(levels: seq<Level>, id: int): (found: Option<Level>)
    ensures found.Some? ==> found.value in levels && found.value.id == id
    ensures found.None? ==> forall i :: 0 <= i < |levels| ==> levels[i].id != id
    ensures found.Some? ==>
              exists k :: 0 <= k < |levels| && levels[k] == found.value &&
                          forall i :: 0 <= i < k ==> levels[i].id != id
    decreases |levels|
  {
    if |levels| == 0 then None
    else if levels[0].id == id then Some(levels[0])
    else FindLevel(levels[1..], id)
  }

  /** The catalog reward for a level id; 0 for an id not in the catalog. */
  function RewardOf(id: int): (xp: int)
    ensures 1 <= id <= 5 ==> xp == Catalog()[id - 1].xp
    ensures !(1 <= id <= 5) ==> xp == 0
  {
    match FindLevel(Catalog(), id)
    case Some(l) => l.xp
    case None => 0
  }

  /** The recomputed status list of `handleStartLevel`: the entry with the
      completed id becomes completed, the entry with the next id becomes
      available, and every other entry is returned as it was. */
  function UpdatedLevels(levels: seq<Level>, completedId: int): (updated: seq<Level>)
    ensures |updated| == |levels|
    ensures forall i :: 0 <= i < |levels| && levels[i].id == completedId ==>
              updated[i] == levels[i].(status := Completed)
    ensures forall i :: 0 <= i < |levels| && levels[i].id == completedId + 1 ==>
              updated[i] == levels[i].(status := Available)
    ensures forall i :: 0 <= i < |levels| ==>
              (levels[i].id != completedId && levels[i].id != completedId + 1 ==>
                 updated[i] == levels[i])
    decreases |levels|
  {
    if |levels| == 0 then []
    else
      var head :=
        if levels[0].id == completedId then levels[0].(status := Completed)
        else if levels[0].id == completedId + 1 then levels[0].(status := Available)
        else levels[0];
      [head] + UpdatedLevels(levels[1..], completedId)
  }

  /** On the catalog, completing level `k` marks exactly entry k-1 completed,
      opens entry k (when there is one), and keeps every other status. */
  lemma CatalogUpdateUnlocksNext(k: int)
    requires 1 <= k <= 5
    ensures UpdatedLevels(Catalog(), k)[k - 1].status == Completed
    ensures k < 5 ==> UpdatedLevels(Catalog(), k)[k].status == Available
    ensures forall i :: 0 <= i < 5 && i != k - 1 && i != k ==>
              UpdatedLevels(Catalog(), k)[i] == Catalog()[i]
  {
  }
}
