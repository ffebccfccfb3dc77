/** The session state of the dashboard (App.tsx): the project list, the
    activity log, the resource board and the pending command, with the
    commands the user interface issues against them. Each React state
    setter becomes an assignment to a field; ids and timestamps that the
    source draws from `Math.random()` and `new Date()` are parameters. */
module Session {
  import opened Types
  import opened Constants
  import opened Transitions
  import ProjectForm

  /** The per-project step of `confirmAction`, with the progress and phase
      recomputed through the same chains of reassignments as the source. */
  method Transition(p: Project, c: Command) returns (r: Project)
    ensures r == ApplyCommand(p, c)
  {
    match c {
      case Progress =>
        var nextIdx := if p.progress + 10 < 100 then p.progress + 10 else 100;
        var newPhase := p.currentPhase;
        if nextIdx >= 100 {
          newPhase := Completed;
        } else if nextIdx >= 75 {
          newPhase := AcceptanceTesting;
        } else if nextIdx >= 50 {
          newPhase := Installation;
        } else if nextIdx >= 25 {
          newPhase := MaterialPrep;
        }
        r := p.(progress := nextIdx, currentPhase := newPhase,
                health := if nextIdx == 100 then Normal else p.health);
      case Material =>
        r := p.(health := MissingMaterial);
      case PhaseJump(newPhase) =>
        var newProgress := p.progress;
        if newPhase == Completed {
          newProgress := 100;
        } else if newPhase == AcceptanceTesting && newProgress < 75 {
          newProgress := 75;
        } else if newPhase == Installation && newProgress < 50 {
          newProgress := 50;
        } else if newPhase == MaterialPrep && newProgress < 25 {
          newProgress := 25;
        } else if newPhase == SiteSurvey && newProgress > 24 {
          newProgress := 0;
        }
        r := p.(currentPhase := newPhase, progress := newProgress,
                health := if newPhase == Completed then Normal else p.health);
    }
  }

  /** The `prev.map` of `confirmAction` with the side effects of its callback:
      every project with the pending id is transformed, and each such project
      logs one entry and, for a shortage, escalates the purchasing unit. */
  method Commit(ps: seq<Project>, u: PendingUpdate, user: User, logId: string, time: int,
                logs: seq<ActivityLog>, resources: seq<ResourceUnit>)
    returns (next: seq<Project>, newLogs: seq<ActivityLog>, newResources: seq<ResourceUnit>)
    ensures next == CommitProjects(ps, u)
    ensures newLogs == CommitLogs(ps, u, user, logId, time, logs)
    ensures newResources == CommitResources(ps, u, resources)
  {
    next, newLogs, newResources := [], logs, resources;
    var i := 0;
    while i < |ps|
      invariant 0 <= i <= |ps|
      invariant next == CommitProjects(ps[..i], u)
      invariant newLogs == CommitLogs(ps[..i], u, user, logId, time, logs)
      invariant newResources == CommitResources(ps[..i], u, resources)
    {
      CommitProjectsStep(ps, i, u);
      CommitLogsStep(ps, i, u, user, logId, time, logs);
      CommitResourcesStep(ps, i, u, resources);
      var q;
      q, newLogs, newResources := Visit(ps[i], u, user, logId, time, newLogs, newResources);
      next := next + [q];
      i := i + 1;
    }
    assert ps[..i] == ps;
  }

  /** The `prev.map` callback of `confirmAction` on one project: a project
      with the pending id is transformed, logs its entry and, for a shortage,
      escalates the purchasing unit; any other project is returned as it is. */
  method Visit(p: Project, u: PendingUpdate, user: User, logId: string, time: int,
               logs: seq<ActivityLog>, resources: seq<ResourceUnit>)
    returns (q: Project, newLogs: seq<ActivityLog>, newResources: seq<ResourceUnit>)
    ensures q == if p.id == u.projectId then ApplyCommand(p, u.command) else p
    ensures newLogs == if p.id == u.projectId then AddLog(logs, CommandEntry(p, u.command, user, logId, time)) else logs
    ensures newResources == if p.id == u.projectId && u.command.Material? then FlagPurchasing(resources, p.name) else resources
  {
    q, newLogs, newResources := p, logs, resources;
    if p.id == u.projectId {
      newLogs := AddLog(newLogs, CommandEntry(p, u.command, user, logId, time));
      if u.command.Material? {
        newResources := FlagPurchasing(newResources, p.name);
      }
      q := Transition(p, u.command);
    }
  }

  class WarRoom {
    var projects: seq<Project>
    var logs: seq<ActivityLog>
    var resources: seq<ResourceUnit>
    var pending: Option<PendingUpdate>

    /** After start-up the log is never empty: the start-up effect fills an
        empty log and every later change only adds entries in front. */
    ghost predicate Valid()
      reads this
    {
      |logs| >= 1
    }

    /** The initial state: the saved projects or else the seed projects, the
        saved log or else an empty one, completed by the start-up effect
        that writes the bootstrap entry into an empty log. */
    constructor (savedProjects: Option<seq<Project>>, savedLogs: Option<seq<ActivityLog>>, bootTime: int)
      ensures projects == if savedProjects.Some? then savedProjects.value else INITIAL_PROJECTS
      ensures logs == BootstrapLogs(if savedLogs.Some? then savedLogs.value else [], bootTime)
      ensures Valid()
      ensures resources == INITIAL_RESOURCES && pending == None
    {
      projects := if savedProjects.Some? then savedProjects.value else INITIAL_PROJECTS;
      var loaded := if savedLogs.Some? then savedLogs.value else [];
      logs := BootstrapLogs(loaded, bootTime);
      resources := INITIAL_RESOURCES;
      pending := None;
    }

    /** `handleUpdateTrigger`: records the command as pending, replacing any
        command already pending; nothing else changes. */
    method Trigger(projectId: string, command: Command)
      requires Valid()
      modifies this
      ensures Valid()
      ensures pending == Some(PendingUpdate(projectId, command))
      ensures projects == old(projects) && logs == old(logs) && resources == old(resources)
    {
      pending := Some(PendingUpdate(projectId, command));
    }

    /** Cancelling the user selection discards the pending command and
        changes nothing else. */
    method Cancel()
      requires Valid()
      modifies this
      ensures Valid()
      ensures pending == None
      ensures projects == old(projects) && logs == old(logs) && resources == old(resources)
    {
      pending := None;
    }

    /** `confirmAction(user)`: with no pending command nothing happens;
        otherwise the command is applied to every project with the pending id,
        each application logs one entry and, for a shortage, escalates the
        purchasing unit, and the pending command is cleared even when no
        project matched. */
    method Confirm(user: User, logId: string, time: int)
      requires Valid()
      modifies this
      ensures Valid()
      ensures old(pending).None? ==>
                projects == old(projects) && logs == old(logs) && resources == old(resources) && pending == None
      ensures old(pending).Some? ==>
                && projects == CommitProjects(old(projects), old(pending).value)
                && logs == CommitLogs(old(projects), old(pending).value, user, logId, time, old(logs))
                && resources == CommitResources(old(projects), old(pending).value, old(resources))
                && pending == None
      ensures |old(logs)| <= LOG_CAPACITY ==> |logs| <= LOG_CAPACITY
    {
      if pending.None? {
        return;
      }
      var u := pending.value;
      projects, logs, resources := Commit(projects, u, user, logId, time, logs, resources);
      pending := None;
    }

    /** `addNewProject`: the draft is appended with its fresh id and a normal
        health, and one entry authored by the administration is logged. */
    method AddNewProject(draft: ProjectDraft, id: string, logId: string, time: int)
      requires Valid()
      modifies this
      ensures Valid()
      ensures projects == old(projects) + [ProjectFromDraft(draft, id)]
      ensures logs == AddLog(old(logs), CreationEntry(ProjectFromDraft(draft, id), logId, time))
      ensures resources == old(resources) && pending == old(pending)
      ensures |old(logs)| <= LOG_CAPACITY ==> |logs| <= LOG_CAPACITY
    {
      var project := ProjectFromDraft(draft, id);
      projects := projects + [project];
      logs := AddLog(logs, CreationEntry(project, logId, time));
    }

    /** Submitting the creation form: an empty name changes nothing, any
        other form adds the project it describes. */
    method SubmitForm(form: ProjectForm.FormData, id: string, logId: string, time: int)
      requires Valid()
      modifies this
      ensures Valid()
      ensures form.name == "" ==>
                projects == old(projects) && logs == old(logs) && resources == old(resources) && pending == old(pending)
      ensures form.name != "" ==>
                var p := ProjectFromDraft(ProjectForm.HandleSubmit(form).value, id);
                && projects == old(projects) + [p]
                && logs == AddLog(old(logs), CreationEntry(p, logId, time))
                && resources == old(resources) && pending == old(pending)
    {
      var draft := ProjectForm.HandleSubmit(form);
      if draft.Some? {
        AddNewProject(draft.value, id, logId, time);
      }
    }
  }

  /** The commit of a command to a project whose id is unique in the list:
      exactly that project changes, exactly one log entry naming it and the
      confirming user goes in front, and the board changes only for a
      shortage, where the purchasing unit names the project. */
  lemma CommitToUniqueProject(ps: seq<Project>, u: PendingUpdate, user: User, logId: string, time: int,
                              logs: seq<ActivityLog>, res: seq<ResourceUnit>, i: nat)
    requires i < |ps| && ps[i].id == u.projectId
    requires forall k :: 0 <= k < |ps| && k != i ==> ps[k].id != u.projectId
    ensures CommitProjects(ps, u) == ps[i := ApplyCommand(ps[i], u.command)]
    ensures var l := CommitLogs(ps, u, user, logId, time, logs);
            |l| == (if |logs| + 1 < LOG_CAPACITY then |logs| + 1 else LOG_CAPACITY)
            && l[0].projectId == ps[i].id && l[0].projectName == ps[i].name && l[0].userName == user.name
            && l[1..] == logs[..|l| - 1]
    ensures CommitResources(ps, u, res) == if u.command.Material? then FlagPurchasing(res, ps[i].name) else res
  {
    CommitOneMatchLogs(ps, u, user, logId, time, logs, i);
    CommitOneMatchResources(ps, u, res, i);
  }
}
