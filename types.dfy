/** The records shared by the dashboard: projects, activity log entries,
    resource units and users, together with the closed enumerations they use.
    JavaScript numbers that the dashboard only ever holds as whole numbers are
    `int`; timestamps are opaque `int` instants supplied by the caller. */
module Types {

  datatype Option<+T> = None | Some(value: T)

  /** The five construction phases, in the order of the phase list. */
  datatype Phase = SiteSurvey | MaterialPrep | Installation | AcceptanceTesting | Completed

  datatype ResourceStatus = Ready | Wait | Low | InProgress | Delayed | Available | Busy | Urgent

  datatype Health = Normal | MissingMaterial | Blocked

  /** The `status` field ('active', 'on-hold', 'completed'). */
  datatype ProjectStatus = StatusActive | StatusOnHold | StatusCompleted

  datatype Project = Project(
    id: string,
    name: string,
    progress: int,
    currentPhase: Phase,
    nextStep: string,
    supportNeeded: seq<string>,
    responsibleTeam: seq<string>,
    status: ProjectStatus,
    health: Health,
    lastUpdated: Option<string>)

  /** A project record as the creation form produces it: everything except
      the id and the health, which the session assigns. */
  datatype ProjectDraft = ProjectDraft(
    name: string,
    progress: int,
    currentPhase: Phase,
    nextStep: string,
    supportNeeded: seq<string>,
    responsibleTeam: seq<string>,
    status: ProjectStatus)

  datatype ActivityLog = ActivityLog(
    id: string,
    projectId: string,
    projectName: string,
    userName: string,
    action: string,
    timestamp: int)

  datatype ResourceUnit = ResourceUnit(
    id: string,
    category: string,
    status: ResourceStatus,
    message: string)

  datatype User = User(id: string, name: string, role: string)

  /** The display label of each phase, as stored in a project record. */
  function PhaseName(ph: Phase): (s: string)
    ensures |s| == 4
    ensures PhaseOfName(s) == Some(ph)
  {
    match ph
    case SiteSurvey => "現場勘查"
    case MaterialPrep => "材料準備"
    case Installation => "施工安裝"
    case AcceptanceTesting => "測試驗收"
    case Completed => "完工結案"
  }

  /** The phase a stored label stands for, if any. */
  function PhaseOfName(s: string): Option<Phase>
  {
    if s == "現場勘查" then Some(SiteSurvey)
    else if s == "材料準備" then Some(MaterialPrep)
    else if s == "施工安裝" then Some(Installation)
    else if s == "測試驗收" then Some(AcceptanceTesting)
    else if s == "完工結案" then Some(Completed)
    else None
  }
}
