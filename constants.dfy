/** The fixed data of the dashboard: the phase order, the seed projects, the
    resource board and the user roster. */
module Constants {
  import opened Types

  /** The construction lifecycle in order, first to last. */
  const PHASES: seq<Phase> := [SiteSurvey, MaterialPrep, Installation, AcceptanceTesting, Completed]

  /** The position of a phase in PHASES. */
  function PhaseIndex(ph: Phase): (i: nat)
    ensures i < |PHASES| && PHASES[i] == ph
    ensures forall j :: 0 <= j < |PHASES| && PHASES[j] == ph ==> j == i
  {
    match ph
    case SiteSurvey => 0
    case MaterialPrep => 1
    case Installation => 2
    case AcceptanceTesting => 3
    case Completed => 4
  }

  /** Phase `a` comes strictly before phase `b` in the lifecycle. */
  predicate Before(a: Phase, b: Phase)
  {
    PhaseIndex(a) < PhaseIndex(b)
  }

  /** The id of the purchasing unit on the resource board, the one a
      material-shortage report escalates. */
  const PURCHASING_ID: string := "pu"

  const INITIAL_RESOURCES: seq<ResourceUnit> := [
    ResourceUnit("wh", "倉儲備料 (Warehouse)", Ready, "主要耗材充足"),
    ResourceUnit(PURCHASING_ID, "採購進度 (Purchasing)", InProgress, "XLPE 電纜配送中"),
    ResourceUnit("eq", "車輛工具 (Equipment)", Available, "3號貨車可用"),
    ResourceUnit("ad", "行政報價 (Admin)", Ready, "報價單已發出")
  ]

  /** The seed projects used when no saved snapshot exists. */
  const INITIAL_PROJECTS: seq<Project> := [
    Project("1", "台積電南科廠電控箱安裝", 40, Installation, "進行 A3 區配線",
            ["缺配線師傅", "電錶一組"], ["師傅A", "經理"], StatusActive, Normal, None),
    Project("2", "桃園航空城路燈配電工程", 15, MaterialPrep, "確認電纜規格",
            ["缺吊車支援"], ["師傅B", "老闆"], StatusActive, Normal, None),
    Project("3", "台北 101 機房定期維修", 80, AcceptanceTesting, "出具測試報告",
            [], ["師傅A", "師傅B"], StatusActive, Normal, None)
  ]

  /** The static roster from which the confirming user is chosen. It is a
      record of the roster only: the session takes the confirming user as a
      parameter. */
  const USERS: seq<User> := [
    User("u1", "老闆", "Owner"),
    User("u2", "經理", "Manager"),
    User("u3", "師傅A", "Chief Engineer"),
    User("u4", "師傅B", "Technician"),
    User("u5", "會計", "Accountant")
  ]
}
