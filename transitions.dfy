/** The pure part of the session: what one committed command does to one
    project, the texts its log entry carries, the escalation of the resource
    board on a material shortage, the bounded activity log, and the effect of
    a whole commit on a project list (App.tsx, `confirmAction`, `addLog`,
    `addNewProject` and the start-up effect). */
module Transitions {
  import opened Types
  import opened Constants
  import Text

  /** The size of one progress step and the progress of a finished project. */
  const STEP: int := 10
  const MAX_PROGRESS: int := 100

  /** The activity log keeps at most this many entries, newest first. */
  const LOG_CAPACITY: nat := 50

  /** The progress at which each phase begins: the thresholds 25/50/75/100
      that both the progress step and the manual phase switch use. */
  function MinProgress(ph: Phase): (m: int)
    ensures m == 25 * PhaseIndex(ph)
    ensures 0 <= m <= MAX_PROGRESS
  {
    match ph
    case SiteSurvey => 0
    case MaterialPrep => 25
    case Installation => 50
    case AcceptanceTesting => 75
    case Completed => 100
  }

  /** `ph` is the latest phase whose threshold `progress` has reached. */
  predicate PhaseReached(progress: int, ph: Phase)
  {
    MinProgress(ph) <= progress && forall q :: Before(ph, q) ==> progress < MinProgress(q)
  }

  /** A project whose phase agrees with its progress. The dashboard does not
      keep this as an invariant: see SeedDataInconsistent. */
  predicate Consistent(p: Project)
  {
    PhaseReached(p.progress, p.currentPhase)
  }

  /** The kinds of pending command: 'progress', 'material', and 'phase' with
      its target phase. */
  datatype Command = Progress | Material | PhaseJump(target: Phase)

  /** The command waiting for a user to confirm it, and the project it names. */
  datatype PendingUpdate = PendingUpdate(projectId: string, command: Command)

  /** The fields no command touches are those of `p`. */
  predicate SameIdentity(p: Project, r: Project)
  {
    && r.id == p.id && r.name == p.name && r.nextStep == p.nextStep
    && r.supportNeeded == p.supportNeeded && r.responsibleTeam == p.responsibleTeam
    && r.status == p.status && r.lastUpdated == p.lastUpdated
  }

  /** The phase after a progress step to `progress`: the phase reached once
      progress is past the first threshold, otherwise the current one. */
  function PhaseAfterStep(progress: int, current: Phase): (ph: Phase)
    ensures progress < MinProgress(MaterialPrep) ==> ph == current
    ensures progress >= MinProgress(MaterialPrep) ==> PhaseReached(progress, ph)
  {
    if progress >= 100 then Completed
    else if progress >= 75 then AcceptanceTesting
    else if progress >= 50 then Installation
    else if progress >= 25 then MaterialPrep
    else current
  }

  /** 'progress': one step forward, capped at the maximum; the phase follows
      the thresholds, and reaching the maximum clears any health alert. */
  function AdvanceProgress(p: Project): (r: Project)
    ensures r.progress <= MAX_PROGRESS
    ensures r.progress == p.progress + STEP || (r.progress == MAX_PROGRESS && p.progress + STEP >= MAX_PROGRESS)
    ensures p.progress <= MAX_PROGRESS ==> p.progress <= r.progress
    ensures 0 <= p.progress ==> 0 <= r.progress
    ensures r.progress < MinProgress(MaterialPrep) ==> r.currentPhase == p.currentPhase
    ensures r.progress >= MinProgress(MaterialPrep) ==> PhaseReached(r.progress, r.currentPhase)
    ensures r.progress == MAX_PROGRESS ==> r.health == Normal
    ensures r.progress != MAX_PROGRESS ==> r.health == p.health
    ensures SameIdentity(p, r)
  {
    var next := if p.progress + STEP < MAX_PROGRESS then p.progress + STEP else MAX_PROGRESS;
    p.(progress := next, currentPhase := PhaseAfterStep(next, p.currentPhase),
       health := if next == MAX_PROGRESS then Normal else p.health)
  }

  /** 'material': the project is flagged as missing material; progress and
      phase stay as they are. */
  function ReportShortage(p: Project): (r: Project)
    ensures r.health == MissingMaterial
    ensures r.progress == p.progress && r.currentPhase == p.currentPhase
    ensures SameIdentity(p, r)
  {
    p.(health := MissingMaterial)
  }

  /** The progress a manual switch to `target` leaves: the maximum for the
      last phase, at least the phase's threshold for the three middle ones, and
      for the first phase a reset to zero unless progress is still below the
      second phase's threshold. */
  function ReconcileProgress(target: Phase, progress: int): (n: int)
    ensures target == Completed ==> n == MAX_PROGRESS
    ensures target != Completed && target != SiteSurvey ==>
              n >= progress && n >= MinProgress(target) && (n == progress || n == MinProgress(target))
    ensures target == SiteSurvey && progress >= MinProgress(MaterialPrep) ==> n == 0
    ensures target == SiteSurvey && progress < MinProgress(MaterialPrep) ==> n == progress
  {
    if target == Completed then 100
    else if target == AcceptanceTesting && progress < 75 then 75
    else if target == Installation && progress < 50 then 50
    else if target == MaterialPrep && progress < 25 then 25
    else if target == SiteSurvey && progress > 24 then 0
    else progress
  }

  /** 'phase': a jump to any phase, forward or back, with progress reconciled;
      only the last phase clears a health alert. */
  function SwitchPhase(p: Project, target: Phase): (r: Project)
    ensures r.currentPhase == target
    ensures r.progress == ReconcileProgress(target, p.progress)
    ensures target != SiteSurvey && p.progress <= MAX_PROGRESS ==> r.progress >= p.progress
    ensures 0 <= p.progress <= MAX_PROGRESS ==> 0 <= r.progress <= MAX_PROGRESS
    ensures target == Completed ==> r.health == Normal
    ensures target != Completed ==> r.health == p.health
    ensures SameIdentity(p, r)
  {
    p.(currentPhase := target, progress := ReconcileProgress(target, p.progress),
       health := if target == Completed then Normal else p.health)
  }

  /** The new state of the project a command is committed to. */
  function ApplyCommand(p: Project, c: Command): (r: Project)
    ensures SameIdentity(p, r)
    ensures c.Material? ==> r.progress == p.progress && r.currentPhase == p.currentPhase
  {
    match c
    case Progress => AdvanceProgress(p)
    case Material => ReportShortage(p)
    case PhaseJump(target) => SwitchPhase(p, target)
  }

  const PROGRESS_PREFIX: string := "更新進度至 "
  const SHORTAGE_ACTION: string := "發出緊急缺料通報！"
  const PHASE_PREFIX: string := "手動調整施工階段為："

  /** The action text logged for a command, computed from the project as it
      was before the command: the progress text names the new progress and
      phase, the phase text names the target phase. */
  function ActionText(p: Project, c: Command): (a: string)
    ensures c.Progress? ==>
              var ph := PhaseName(AdvanceProgress(p).currentPhase);
              var n := Text.IntToString(AdvanceProgress(p).progress);
              && |a| == |PROGRESS_PREFIX| + |n| + 3 + |ph| + 1
              && a[..|PROGRESS_PREFIX|] == PROGRESS_PREFIX
              && a[|PROGRESS_PREFIX|..|PROGRESS_PREFIX| + |n|] == n
              && a[|PROGRESS_PREFIX| + |n|..|PROGRESS_PREFIX| + |n| + 3] == "% ("
              && a[|a| - |ph| - 1..|a| - 1] == ph
              && a[|a| - 1] == ')'
    ensures c.Material? ==> a == SHORTAGE_ACTION
    ensures c.PhaseJump? ==>
              |a| >= |PHASE_PREFIX| && a[..|PHASE_PREFIX|] == PHASE_PREFIX && a[|PHASE_PREFIX|..] == PhaseName(c.target)
  {
    match c
    case Progress =>
      var r := AdvanceProgress(p);
      PROGRESS_PREFIX + Text.IntToString(r.progress) + "% (" + PhaseName(r.currentPhase) + ")"
    case Material => SHORTAGE_ACTION
    case PhaseJump(target) => PHASE_PREFIX + PhaseName(target)
  }

  /** The progress text logged for a step reads back as the new progress. */
  lemma ProgressActionRecordsProgress(p: Project)
    ensures var n := Text.IntToString(AdvanceProgress(p).progress);
            var a := ActionText(p, Progress);
            |PROGRESS_PREFIX| + |n| <= |a| && a[..|PROGRESS_PREFIX|] == PROGRESS_PREFIX
            && Text.ParseInt(a[|PROGRESS_PREFIX|..|PROGRESS_PREFIX| + |n|]) == AdvanceProgress(p).progress
  {
    var r := AdvanceProgress(p);
    var n := Text.IntToString(r.progress);
    var a := ActionText(p, Progress);
    assert a == PROGRESS_PREFIX + n + ("% (" + PhaseName(r.currentPhase) + ")");
    assert a[|PROGRESS_PREFIX|..|PROGRESS_PREFIX| + |n|] == n;
    Text.IntToStringRoundTrip(r.progress);
  }

  /** The log entry for a command committed to `p` by `user`. */
  function CommandEntry(p: Project, c: Command, user: User, logId: string, time: int): (e: ActivityLog)
    ensures e.projectId == p.id && e.projectName == p.name && e.userName == user.name
    ensures e.action == ActionText(p, c) && e.id == logId && e.timestamp == time
  {
    ActivityLog(logId, p.id, p.name, user.name, ActionText(p, c), time)
  }

  /** `addLog`: the entry goes in front and the log is cut to its capacity, so
      the oldest entry beyond the capacity is dropped. */
  function AddLog(logs: seq<ActivityLog>, e: ActivityLog): (r: seq<ActivityLog>)
    ensures |r| == if |logs| + 1 < LOG_CAPACITY then |logs| + 1 else LOG_CAPACITY
    ensures r[0] == e
    ensures r[1..] == logs[..|r| - 1]
  {
    var all := [e] + logs;
    assert all[1..] == logs;
    all[..if |all| < LOG_CAPACITY then |all| else LOG_CAPACITY]
  }

  /** Several `addLog` calls in a row, the first entry first. */
  function AddLogs(logs: seq<ActivityLog>, es: seq<ActivityLog>): seq<ActivityLog>
    decreases |es|
  {
    if es == [] then logs else AddLogs(AddLog(logs, es[0]), es[1..])
  }

  function Reverse<T>(s: seq<T>): (r: seq<T>)
    ensures |r| == |s|
  {
    if s == [] then [] else Reverse(s[1..]) + [s[0]]
  }

  /** After one or more insertions the log holds the newest entries first,
      followed by the old log, cut to the capacity. */
  lemma {:induction false} AddLogsNewestFirst(logs: seq<ActivityLog>, es: seq<ActivityLog>)
    requires |es| >= 1
    ensures var n := if |es| + |logs| < LOG_CAPACITY then |es| + |logs| else LOG_CAPACITY;
            AddLogs(logs, es) == (Reverse(es) + logs)[..n]
    decreases |es|
  {
    var e, rest := es[0], es[1..];
    var l1 := AddLog(logs, e);
    assert Reverse(es) == Reverse(rest) + [e];
    if rest == [] {
      assert AddLogs(logs, es) == AddLogs(l1, rest) == l1;
      assert Reverse(es) == [e];
    } else {
      AddLogsNewestFirst(l1, rest);
      var n := if |es| + |logs| < LOG_CAPACITY then |es| + |logs| else LOG_CAPACITY;
      var m := if |rest| + |l1| < LOG_CAPACITY then |rest| + |l1| else LOG_CAPACITY;
      assert m == n;
      assert l1 == ([e] + logs)[..|l1|];
      var big := Reverse(rest) + ([e] + logs);
      assert Reverse(rest) + l1 == big[..|rest| + |l1|];
      assert Reverse(es) + logs == big;
    }
  }

  /** Capacity many insertions leave none of the old log behind. */
  lemma AddLogsEvictsOld(logs: seq<ActivityLog>, es: seq<ActivityLog>)
    requires |es| >= LOG_CAPACITY
    ensures AddLogs(logs, es) == Reverse(es)[..LOG_CAPACITY]
  {
    AddLogsNewestFirst(logs, es);
    assert (Reverse(es) + logs)[..LOG_CAPACITY] == Reverse(es)[..LOG_CAPACITY];
  }

  /** The message the purchasing unit shows for a shortage on project `name`. */
  function ShortageMessage(name: string): (m: string)
    ensures |m| > |name| && m[..|name|] == name
  {
    name + " 缺料待補!"
  }

  /** The resource board after a shortage on project `name`: every unit with
      the purchasing id becomes URGENT with the shortage message; every other
      unit stays as it was. */
  function FlagPurchasing(res: seq<ResourceUnit>, name: string): (r: seq<ResourceUnit>)
    ensures |r| == |res|
    ensures forall k :: 0 <= k < |res| && res[k].id == PURCHASING_ID ==>
              r[k] == res[k].(status := Urgent, message := ShortageMessage(name))
    ensures forall k :: 0 <= k < |res| && res[k].id != PURCHASING_ID ==> r[k] == res[k]
  {
    seq(|res|, k requires 0 <= k < |res| =>
      if res[k].id == PURCHASING_ID then res[k].(status := Urgent, message := ShortageMessage(name)) else res[k])
  }

  /** The escalated unit carries the project's name in its message. */
  lemma FlagPurchasingNamesProject(res: seq<ResourceUnit>, name: string, k: nat)
    requires k < |res| && res[k].id == PURCHASING_ID
    ensures var r := FlagPurchasing(res, name);
            r[k].status == Urgent && r[k].message[..|name|] == name
            && r[k].id == res[k].id && r[k].category == res[k].category
  {
  }

  /** The project list after a commit: projects whose id matches get the
      command, the others are left alone; length and order are kept. */
  function CommitProjects(ps: seq<Project>, u: PendingUpdate): (r: seq<Project>)
    ensures |r| == |ps|
    ensures forall k :: 0 <= k < |ps| && ps[k].id == u.projectId ==> r[k] == ApplyCommand(ps[k], u.command)
    ensures forall k :: 0 <= k < |ps| && ps[k].id != u.projectId ==> r[k] == ps[k]
  {
    seq(|ps|, k requires 0 <= k < |ps| =>
      if ps[k].id == u.projectId then ApplyCommand(ps[k], u.command) else ps[k])
  }

  /** The log after a commit: one entry per matching project, in list order,
      so that the last match ends up newest. A non-empty log stays non-empty
      and a log within its capacity stays within it. */
  function CommitLogs(ps: seq<Project>, u: PendingUpdate, user: User, logId: string, time: int,
                      logs: seq<ActivityLog>): (r: seq<ActivityLog>)
    ensures logs != [] ==> r != []
    ensures |logs| <= LOG_CAPACITY ==> |r| <= LOG_CAPACITY
    decreases |ps|
  {
    if ps == [] then logs
    else
      var before := CommitLogs(ps[..|ps| - 1], u, user, logId, time, logs);
      var p := ps[|ps| - 1];
      if p.id == u.projectId then AddLog(before, CommandEntry(p, u.command, user, logId, time)) else before
  }

  /** The positions of the projects with the pending id, in increasing order. */
  function MatchIndices(ps: seq<Project>, u: PendingUpdate): (ix: seq<nat>)
    ensures forall k :: 0 <= k < |ix| ==> ix[k] < |ps| && ps[ix[k]].id == u.projectId
    ensures forall k, l :: 0 <= k < l < |ix| ==> ix[k] < ix[l]
    decreases |ps|
  {
    if ps == [] then []
    else
      var init := ps[..|ps| - 1];
      var ix0 := MatchIndices(init, u);
      var m := |ps| - 1;
      assert forall k :: 0 <= k < |ix0| ==> ix0[k] < m && ps[ix0[k]] == init[ix0[k]];
      if ps[m].id == u.projectId then ix0 + [m] else ix0
  }

  /** Every project with the pending id has its position among the matches. */
  lemma {:induction false} MatchIndicesComplete(ps: seq<Project>, u: PendingUpdate)
    ensures forall j :: 0 <= j < |ps| && ps[j].id == u.projectId ==> j in MatchIndices(ps, u)
    decreases |ps|
  {
    if ps != [] {
      var init, m := ps[..|ps| - 1], |ps| - 1;
      MatchIndicesComplete(init, u);
      var ix0 := MatchIndices(init, u);
      assert forall j :: 0 <= j < m ==> ps[j] == init[j];
      assert MatchIndices(ps, u) == ix0 + (if ps[m].id == u.projectId then [m] else []);
    }
  }

  /** The set of positions of the projects with the pending id. */
  ghost function MatchSet(ps: seq<Project>, u: PendingUpdate): set<nat>
  {
    set j: nat | j < |ps| && ps[j].id == u.projectId
  }

  /** One more project adds its position to the match set when it matches. */
  lemma MatchSetStep(ps: seq<Project>, u: PendingUpdate)
    requires ps != []
    ensures |MatchSet(ps, u)| == |MatchSet(ps[..|ps| - 1], u)| + (if ps[|ps| - 1].id == u.projectId then 1 else 0)
  {
    var init := ps[..|ps| - 1];
    var m := |ps| - 1;
    var before, here := MatchSet(init, u), MatchSet(ps, u);
    assert forall j :: 0 <= j < m ==> ps[j] == init[j];
    assert m !in before;
    assert forall j :: j in before ==> j in here;
    assert forall j :: j in here && j != m ==> j in before;
    if ps[m].id == u.projectId {
      assert here == before + {m};
    } else {
      assert here == before;
    }
  }

  /** There are as many match positions as projects with the pending id. */
  lemma {:induction false} MatchIndicesCount(ps: seq<Project>, u: PendingUpdate)
    ensures |MatchIndices(ps, u)| == |MatchSet(ps, u)|
    decreases |ps|
  {
    if ps == [] {
      assert MatchSet(ps, u) == {};
    } else {
      MatchIndicesCount(ps[..|ps| - 1], u);
      MatchSetStep(ps, u);
    }
  }

  /** The entries a commit logs: one per matching project, in list order,
      each naming that project and the confirming user. */
  function MatchEntries(ps: seq<Project>, u: PendingUpdate, user: User, logId: string, time: int): (es: seq<ActivityLog>)
    ensures |es| <= |ps|
    ensures forall k :: 0 <= k < |es| ==> es[k].projectId == u.projectId && es[k].userName == user.name
    decreases |ps|
  {
    if ps == [] then []
    else
      var p := ps[|ps| - 1];
      MatchEntries(ps[..|ps| - 1], u, user, logId, time)
        + (if p.id == u.projectId then [CommandEntry(p, u.command, user, logId, time)] else [])
  }

  /** `f` of each project with the pending id, in list order. */
  function MapMatches<T>(ps: seq<Project>, u: PendingUpdate, f: Project -> T): seq<T>
    decreases |ps|
  {
    if ps == [] then []
    else
      var p := ps[|ps| - 1];
      MapMatches(ps[..|ps| - 1], u, f) + (if p.id == u.projectId then [f(p)] else [])
  }

  /** Element k of MapMatches is `f` of the k-th match. */
  lemma {:induction false} MapMatchesAt<T>(ps: seq<Project>, u: PendingUpdate, f: Project -> T)
    ensures var xs, ix := MapMatches(ps, u, f), MatchIndices(ps, u);
            |xs| == |ix| && forall k :: 0 <= k < |xs| ==> xs[k] == f(ps[ix[k]])
    decreases |ps|
  {
    if ps != [] {
      var init, m := ps[..|ps| - 1], |ps| - 1;
      MapMatchesAt(init, u, f);
      var xs0, ix0 := MapMatches(init, u, f), MatchIndices(init, u);
      var xs, ix := MapMatches(ps, u, f), MatchIndices(ps, u);
      assert xs == xs0 + (if ps[m].id == u.projectId then [f(ps[m])] else []);
      assert ix == ix0 + (if ps[m].id == u.projectId then [m] else []);
      forall k | 0 <= k < |xs| ensures xs[k] == f(ps[ix[k]]) {
        if k < |xs0| {
          assert xs[k] == xs0[k] && ix[k] == ix0[k];
          assert ps[ix0[k]] == init[ix0[k]];
        }
      }
    }
  }

  /** The entries of a commit are `CommandEntry` mapped over the matches. */
  lemma {:induction false} MatchEntriesMap(ps: seq<Project>, u: PendingUpdate, user: User, logId: string, time: int,
                                           f: Project -> ActivityLog)
    requires forall q :: f(q) == CommandEntry(q, u.command, user, logId, time)
    ensures MatchEntries(ps, u, user, logId, time) == MapMatches(ps, u, f)
    decreases |ps|
  {
    if ps != [] {
      MatchEntriesMap(ps[..|ps| - 1], u, user, logId, time, f);
    }
  }

  /** The entries of a commit are, in list order, those of the projects with
      the pending id: entry k belongs to the k-th match. */
  lemma MatchEntriesInOrder(ps: seq<Project>, u: PendingUpdate, user: User, logId: string, time: int)
    ensures var es, ix := MatchEntries(ps, u, user, logId, time), MatchIndices(ps, u);
            && |es| == |ix|
            && forall k :: 0 <= k < |es| ==> es[k] == CommandEntry(ps[ix[k]], u.command, user, logId, time)
  {
    var f := (q: Project) => CommandEntry(q, u.command, user, logId, time);
    MatchEntriesMap(ps, u, user, logId, time, f);
    MapMatchesAt(ps, u, f);
  }

  /** A commit logs exactly as many entries as there are projects with the
      pending id. */
  lemma MatchEntriesCount(ps: seq<Project>, u: PendingUpdate, user: User, logId: string, time: int)
    ensures |MatchEntries(ps, u, user, logId, time)| == |MatchSet(ps, u)|
  {
    MatchEntriesInOrder(ps, u, user, logId, time);
    MatchIndicesCount(ps, u);
  }

  /** Adding a batch and then one more entry is adding the longer batch. */
  lemma {:induction false} AddLogsSnoc(logs: seq<ActivityLog>, es: seq<ActivityLog>, e: ActivityLog)
    ensures AddLogs(logs, es + [e]) == AddLog(AddLogs(logs, es), e)
    decreases |es|
  {
    if es == [] {
      assert [] + [e] == [e];
      assert [e][1..] == [];
    } else {
      assert (es + [e])[0] == es[0];
      assert (es + [e])[1..] == es[1..] + [e];
      AddLogsSnoc(AddLog(logs, es[0]), es[1..], e);
    }
  }

  /** A commit logs exactly as a run of `addLog` calls, one per matching
      project in list order: the entries appear newest first, the last match
      on top, followed by the old log and cut to the capacity. */
  lemma CommitLogsNewestFirst(ps: seq<Project>, u: PendingUpdate, user: User, logId: string,
                              time: int, logs: seq<ActivityLog>)
    ensures CommitLogs(ps, u, user, logId, time, logs) == AddLogs(logs, MatchEntries(ps, u, user, logId, time))
    ensures var es := MatchEntries(ps, u, user, logId, time);
            var n := if |es| + |logs| < LOG_CAPACITY then |es| + |logs| else LOG_CAPACITY;
            es != [] ==> CommitLogs(ps, u, user, logId, time, logs) == (Reverse(es) + logs)[..n]
  {
    CommitLogsBatch(ps, u, user, logId, time, logs);
    var es := MatchEntries(ps, u, user, logId, time);
    if es != [] {
      AddLogsNewestFirst(logs, es);
    }
  }

  /** The induction behind CommitLogsNewestFirst: one `addLog` per match. */
  lemma {:induction false} CommitLogsBatch(ps: seq<Project>, u: PendingUpdate, user: User, logId: string,
                                           time: int, logs: seq<ActivityLog>)
    ensures CommitLogs(ps, u, user, logId, time, logs) == AddLogs(logs, MatchEntries(ps, u, user, logId, time))
    decreases |ps|
  {
    if ps != [] {
      var init := ps[..|ps| - 1];
      var p := ps[|ps| - 1];
      CommitLogsBatch(init, u, user, logId, time, logs);
      var es0 := MatchEntries(init, u, user, logId, time);
      if p.id == u.projectId {
        assert MatchEntries(ps, u, user, logId, time) == es0 + [CommandEntry(p, u.command, user, logId, time)];
        AddLogsSnoc(logs, es0, CommandEntry(p, u.command, user, logId, time));
      } else {
        assert MatchEntries(ps, u, user, logId, time) == es0 + [];
        assert es0 + [] == es0;
      }
    }
  }

  /** `r` differs from the board `res` at most in the status and message of
      its purchasing units. */
  predicate OnlyPurchasingDiffers(res: seq<ResourceUnit>, r: seq<ResourceUnit>)
  {
    && |r| == |res|
    && (forall k :: 0 <= k < |res| && res[k].id != PURCHASING_ID ==> r[k] == res[k])
    && (forall k :: 0 <= k < |res| && res[k].id == PURCHASING_ID ==>
          r[k].id == res[k].id && r[k].category == res[k].category)
  }

  /** The resource board after a commit: each matching shortage report
      escalates the purchasing unit, so the last match's message stays; no
      unit other than a purchasing one ever changes. */
  function CommitResources(ps: seq<Project>, u: PendingUpdate, res: seq<ResourceUnit>): (r: seq<ResourceUnit>)
    ensures OnlyPurchasingDiffers(res, r)
    decreases |ps|
  {
    if ps == [] then res
    else
      var before := CommitResources(ps[..|ps| - 1], u, res);
      var p := ps[|ps| - 1];
      if p.id == u.projectId && u.command.Material? then FlagPurchasing(before, p.name) else before
  }

  /** One more project in a commit: the projects take that project's effect
      on top of the effect of the projects before it. */
  lemma CommitProjectsStep(ps: seq<Project>, i: nat, u: PendingUpdate)
    requires i < |ps|
    ensures CommitProjects(ps[..i + 1], u)
            == CommitProjects(ps[..i], u) + [if ps[i].id == u.projectId then ApplyCommand(ps[i], u.command) else ps[i]]
  {
    var a, b := CommitProjects(ps[..i + 1], u), CommitProjects(ps[..i], u);
    var q := if ps[i].id == u.projectId then ApplyCommand(ps[i], u.command) else ps[i];
    assert forall k :: 0 <= k < i ==> a[k] == b[k];
    assert a == b + [q];
  }

  /** One more project in a commit: the log takes that project's entry on
      top of the entries of the projects before it. */
  lemma CommitLogsStep(ps: seq<Project>, i: nat, u: PendingUpdate, user: User, logId: string, time: int,
                       logs: seq<ActivityLog>)
    requires i < |ps|
    ensures CommitLogs(ps[..i + 1], u, user, logId, time, logs)
            == (if ps[i].id == u.projectId then AddLog(CommitLogs(ps[..i], u, user, logId, time, logs),
                                                       CommandEntry(ps[i], u.command, user, logId, time))
                else CommitLogs(ps[..i], u, user, logId, time, logs))
  {
    assert ps[..i + 1][..i] == ps[..i];
  }

  /** One more project in a commit: the board takes that project's
      escalation on top of the effect of the projects before it. */
  lemma CommitResourcesStep(ps: seq<Project>, i: nat, u: PendingUpdate, res: seq<ResourceUnit>)
    requires i < |ps|
    ensures CommitResources(ps[..i + 1], u, res)
            == (if ps[i].id == u.projectId && u.command.Material? then FlagPurchasing(CommitResources(ps[..i], u, res), ps[i].name)
                else CommitResources(ps[..i], u, res))
  {
    assert ps[..i + 1][..i] == ps[..i];
  }

  /** Escalating a board forgets any earlier escalation. */
  lemma FlagPurchasingForgets(res: seq<ResourceUnit>, r: seq<ResourceUnit>, name: string)
    requires OnlyPurchasingDiffers(res, r)
    ensures FlagPurchasing(r, name) == FlagPurchasing(res, name)
  {
    var a, b := FlagPurchasing(r, name), FlagPurchasing(res, name);
    forall k | 0 <= k < |res| ensures a[k] == b[k] {
      if res[k].id == PURCHASING_ID {
        assert a[k] == ResourceUnit(res[k].id, res[k].category, Urgent, ShortageMessage(name));
      }
    }
  }

  /** With several shortage matches the last one wins: the board is escalated
      exactly as for the last matching project alone. */
  lemma {:induction false} CommitResourcesLastMatchWins(ps: seq<Project>, u: PendingUpdate, res: seq<ResourceUnit>, i: nat)
    requires u.command.Material?
    requires i < |ps| && ps[i].id == u.projectId
    requires forall k :: i < k < |ps| ==> ps[k].id != u.projectId
    ensures CommitResources(ps, u, res) == FlagPurchasing(res, ps[i].name)
    decreases |ps|
  {
    var init := ps[..|ps| - 1];
    if i == |ps| - 1 {
      FlagPurchasingForgets(res, CommitResources(init, u, res), ps[i].name);
    } else {
      CommitResourcesLastMatchWins(init, u, res, i);
    }
  }

  /** No project with the pending id: the commit changes nothing. */
  lemma {:induction false} CommitNoMatch(ps: seq<Project>, u: PendingUpdate, user: User, logId: string, time: int,
                                         logs: seq<ActivityLog>, res: seq<ResourceUnit>)
    requires forall k :: 0 <= k < |ps| ==> ps[k].id != u.projectId
    ensures CommitProjects(ps, u) == ps
    ensures CommitLogs(ps, u, user, logId, time, logs) == logs
    ensures CommitResources(ps, u, res) == res
    decreases |ps|
  {
    if ps != [] {
      CommitNoMatch(ps[..|ps| - 1], u, user, logId, time, logs, res);
    }
  }

  /** Exactly one project with the pending id: the commit prepends exactly one
      log entry, naming that project and the confirming user. */
  lemma {:induction false} CommitOneMatchLogs(ps: seq<Project>, u: PendingUpdate, user: User, logId: string,
                                              time: int, logs: seq<ActivityLog>, i: nat)
    requires i < |ps| && ps[i].id == u.projectId
    requires forall k :: 0 <= k < |ps| && k != i ==> ps[k].id != u.projectId
    ensures CommitLogs(ps, u, user, logId, time, logs) == AddLog(logs, CommandEntry(ps[i], u.command, user, logId, time))
    decreases |ps|
  {
    var init := ps[..|ps| - 1];
    if i == |ps| - 1 {
      CommitNoMatch(init, u, user, logId, time, logs, []);
    } else {
      CommitOneMatchLogs(init, u, user, logId, time, logs, i);
    }
  }

  /** Exactly one project with the pending id: a shortage escalates the
      purchasing unit with that project's name, and any other command leaves
      the board alone. */
  lemma {:induction false} CommitOneMatchResources(ps: seq<Project>, u: PendingUpdate, res: seq<ResourceUnit>, i: nat)
    requires i < |ps| && ps[i].id == u.projectId
    requires forall k :: 0 <= k < |ps| && k != i ==> ps[k].id != u.projectId
    ensures CommitResources(ps, u, res) == if u.command.Material? then FlagPurchasing(res, ps[i].name) else res
    decreases |ps|
  {
    var init := ps[..|ps| - 1];
    if i == |ps| - 1 {
      CommitNoMatch(init, u, User("", "", ""), "", 0, [], res);
    } else {
      CommitOneMatchResources(init, u, res, i);
    }
  }

  /** Only a shortage report touches the resource board. */
  lemma {:induction false} CommitResourcesOnlyOnShortage(ps: seq<Project>, u: PendingUpdate, res: seq<ResourceUnit>)
    requires !u.command.Material?
    ensures CommitResources(ps, u, res) == res
    decreases |ps|
  {
    if ps != [] {
      CommitResourcesOnlyOnShortage(ps[..|ps| - 1], u, res);
    }
  }

  /** Once a commit has matched at least one project, the log is within its
      capacity, whatever its length before. */
  lemma {:induction false} CommitLogsWithinCapacity(ps: seq<Project>, u: PendingUpdate, user: User, logId: string,
                                                    time: int, logs: seq<ActivityLog>, i: nat)
    requires i < |ps| && ps[i].id == u.projectId
    ensures 1 <= |CommitLogs(ps, u, user, logId, time, logs)| <= LOG_CAPACITY
    decreases |ps|
  {
    var init := ps[..|ps| - 1];
    if i < |ps| - 1 {
      CommitLogsWithinCapacity(init, u, user, logId, time, logs, i);
    }
  }

  /** A step from a consistent project keeps it consistent. */
  lemma AdvancePreservesConsistency(p: Project)
    requires Consistent(p)
    ensures Consistent(AdvanceProgress(p))
  {
    if p.currentPhase != SiteSurvey {
      assert Before(SiteSurvey, p.currentPhase);
    }
  }

  /** Once a step brings progress to the second threshold, the phase agrees
      with the progress, whatever it was before. */
  lemma AdvanceRestoresConsistency(p: Project)
    requires p.progress + STEP >= MinProgress(MaterialPrep)
    ensures Consistent(AdvanceProgress(p))
  {
  }

  /** Two of the seed projects are behind their own phase's threshold, so
      phase/progress agreement is not an invariant of the dashboard. */
  lemma SeedDataInconsistent()
    ensures !Consistent(INITIAL_PROJECTS[0]) && !Consistent(INITIAL_PROJECTS[1])
    ensures INITIAL_PROJECTS[0].progress < MinProgress(INITIAL_PROJECTS[0].currentPhase)
    ensures INITIAL_PROJECTS[1].progress < MinProgress(INITIAL_PROJECTS[1].currentPhase)
  {
  }

  /** The entry the start-up effect writes into an empty log. */
  function BootstrapEntry(time: int): ActivityLog
  {
    ActivityLog("init", "sys", "系統", "指揮中心", "成鼎電工戰略室已於 Vercel 上線", time)
  }

  /** The start-up effect: an empty log gets the bootstrap entry, any other
      log is kept as it is, so the log is never empty afterwards. */
  function BootstrapLogs(logs: seq<ActivityLog>, time: int): (r: seq<ActivityLog>)
    ensures |r| >= 1
    ensures logs != [] ==> r == logs
    ensures logs == [] ==> r == [BootstrapEntry(time)]
  {
    if |logs| == 0 then [BootstrapEntry(time)] else logs
  }

  /** The user name under which project creation is logged. */
  const ADMIN_NAME: string := "管理端"
  const CREATION_ACTION: string := "新增工程部署計畫"

  /** `addNewProject`'s record: the draft with its fresh id and a normal health. */
  function ProjectFromDraft(d: ProjectDraft, id: string): (p: Project)
    ensures p.id == id && p.health == Normal && p.lastUpdated == None
    ensures p.name == d.name && p.progress == d.progress && p.currentPhase == d.currentPhase
    ensures p.nextStep == d.nextStep && p.supportNeeded == d.supportNeeded
    ensures p.responsibleTeam == d.responsibleTeam && p.status == d.status
  {
    Project(id, d.name, d.progress, d.currentPhase, d.nextStep, d.supportNeeded, d.responsibleTeam,
            d.status, Normal, None)
  }

  /** The log entry for a new project, authored by the administration. */
  function CreationEntry(p: Project, logId: string, time: int): (e: ActivityLog)
    ensures e.projectId == p.id && e.projectName == p.name && e.userName == ADMIN_NAME
    ensures e.action == CREATION_ACTION && e.id == logId && e.timestamp == time
  {
    ActivityLog(logId, p.id, p.name, ADMIN_NAME, CREATION_ACTION, time)
  }
}
