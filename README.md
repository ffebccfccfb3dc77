# Project war room: session state machine

A model of the logic of a single-page dashboard that an electrical contractor
uses to track construction projects. The dashboard holds four pieces of state:

- a list of projects, each with a progress percentage and one of five phases;
- an activity log that keeps the 50 newest entries, newest first;
- a resource board whose purchasing unit (`pu`) is escalated on a material
  shortage;
- at most one pending command.

A user first picks a command on a project card: advance progress, report a
material shortage, or jump to a phase. The command is only recorded. It takes
effect when a user from the roster confirms it, and that confirmation writes
the log entry. A form creates new projects.

Modules, one per source concern:

- `Types` (`types.dfy`): the records and enumerations of `types.ts`.
- `Constants` (`constants.dfy`): the phase order, seed projects, resource
  board and roster of `constants.tsx`.
- `Text` (`text.dfy`): the JavaScript built-ins the core depends on.
  `trim` strips ECMAScript white space and line terminators. `split` uses a
  one-character separator. The decimal rendering of a number is the one a
  template literal produces below 10^21 in magnitude.
- `Transitions` (`transitions.dfy`): the pure part of `App.tsx`. It covers the
  three per-project commands, the log and resource updates, and the effect of
  a whole commit on the project list.
- `ProjectForm` (`projectform.dfy`): `handleSubmit` of the creation form.
- `Session` (`session.dfy`): the session state as the class `WarRoom`. Each
  React state setter becomes a field assignment. `Confirm` runs the
  `prev.map` of `confirmAction` as a loop (`Commit`), because its callback
  has side effects on the log and the resource board.

Ids (`Math.random()`) and timestamps (`new Date()`) are parameters. A
timestamp is an opaque `int`.

Facts about the code that the model keeps:

- **Thresholds.** The phase thresholds are 100/75/50/25 (App.tsx:90-93, 106-109).
- **Rewind to 現場勘查.** It resets progress to 0 only when progress is above
  24 (App.tsx:110). Otherwise it keeps progress.
- **`lastUpdated`.** No transition ever sets it.
- **Names.** A name made only of white space is accepted
  (components/AddProjectModal.tsx:20 rejects only the empty string).
- **Progress/phase agreement.** It is not an invariant. Two seed projects
  already break it (`SeedDataInconsistent`), and a progress step below 25
  keeps the old phase.
- **Log never empty.** After start-up the log always has at least one entry
  (`Session.WarRoom.Valid`). A saved log longer than 50 entries is kept as it
  is until the next entry cuts it to 50.

## Model

| member | source | states |
|---|---|---|
| Constants.PhaseIndex | constants.tsx:4-10 | every phase has exactly one position in the lifecycle order |
| Types.PhaseName | types.ts:2 | each phase has its own four-character label, and the label reads back as that phase |
| Transitions.MinProgress | App.tsx:90-109 | the threshold of each phase is 25 times its position in the lifecycle order, from 0 for 現場勘查 to 100 for 完工結案 |
| Transitions.PhaseAfterStep | App.tsx:89-93 | at 25 or more, the phase is the latest phase whose threshold has been reached; below 25 the current phase is kept |
| Transitions.AdvanceProgress | App.tsx:87-96 | progress becomes min(progress + 10, 100); it stays at most 100 and never decreases from a value at most 100; the phase follows the thresholds from 25 on and is kept below; health becomes normal exactly when progress reaches 100 and is otherwise kept; id, name, lists, status and lastUpdated are untouched |
| Transitions.ReportShortage | App.tsx:97-100 | health becomes missing_material; progress, phase and every other field are untouched |
| Transitions.ReconcileProgress | App.tsx:105-110 | completed gives 100; the three middle phases give max(progress, phase threshold); site survey gives 0 from 25 on and keeps lower progress |
| Transitions.SwitchPhase | App.tsx:101-112 | the phase becomes the target; progress is reconciled and, from a value at most 100, never lowered except on a rewind to site survey; progress within 0..100 stays within 0..100; only completed resets health to normal |
| Transitions.ApplyCommand | App.tsx:85-113 | no command changes a project's id, name, next step, lists, status or lastUpdated; a shortage keeps progress and phase |
| Transitions.ProgressActionRecordsProgress | App.tsx:95 | the logged text of a progress step starts with the fixed prefix and reads back as the new progress |
| Transitions.ActionText | App.tsx:95-103 | a progress step logs exactly the fixed prefix, the new progress in decimal, `% (`, the new phase's label and `)`; a shortage logs 發出緊急缺料通報！; a phase jump logs the fixed prefix followed by exactly the target phase's label |
| Transitions.CommandEntry | App.tsx:66-74 | a command's log entry carries the project's id and name, the confirming user's name, the command's text, and the given id and timestamp |
| Transitions.AddLog | App.tsx:75 | the new entry is at index 0; the length is min(old + 1, 50); the rest is a prefix of the old log, so the oldest entry beyond 50 is dropped |
| Transitions.AddLogsNewestFirst | App.tsx:75 | after one or more insertions, the log is the new entries newest first, followed by the old log, cut to 50 |
| Transitions.AddLogsEvictsOld | App.tsx:75 | after 50 or more insertions, only the 50 newest of them remain and nothing of the old log |
| Transitions.ShortageMessage | App.tsx:99 | the purchasing message starts with the project's name |
| Transitions.FlagPurchasing | App.tsx:99 | every unit with id `pu` becomes URGENT with the shortage message; every other unit is unchanged; the board keeps its length |
| Transitions.FlagPurchasingNamesProject | App.tsx:99 | the escalated unit keeps its id and category, is URGENT, and its message contains the project's name |
| Transitions.CommitProjects | App.tsx:85-116 | length and order are kept; projects with the pending id get the command and all others are unchanged |
| Transitions.CommitLogs | App.tsx:85-103 | the log after a commit: a non-empty log stays non-empty, and a log within capacity stays within capacity |
| Transitions.MatchIndices | App.tsx:85-86 | the positions the `prev.map` callback acts on: strictly increasing, and each one a project with the pending id |
| Transitions.MatchIndicesComplete | App.tsx:85-86 | every project with the pending id has its position among those positions |
| Transitions.MatchIndicesCount | App.tsx:85-86 | there are exactly as many of those positions as projects with the pending id |
| Transitions.MatchEntries | App.tsx:85-103 | the entries one commit logs: each names the pending project id and the confirming user, and there are no more of them than projects |
| Transitions.MatchEntriesInOrder | App.tsx:85-103 | entry k is the log entry of the k-th matching project, counted in list order, for the pending command and the confirming user |
| Transitions.MatchEntriesCount | App.tsx:85-103 | a commit logs exactly as many entries as there are projects with the pending id |
| Transitions.CommitLogsNewestFirst | App.tsx:75-103 | a commit logs exactly like one `addLog` call per matching project in list order; the entries end up newest first with the last match on top, then the old log, cut to 50 |
| Transitions.CommitResources | App.tsx:97-99 | across a commit, only purchasing units change, and only in status and message; the board keeps its length |
| Transitions.CommitResourcesLastMatchWins | App.tsx:97-99 | with several matching shortage reports, the board is escalated exactly as for the last matching project alone |
| Transitions.FlagPurchasingForgets | App.tsx:99 | escalating a board erases any earlier escalation's message |
| Transitions.CommitNoMatch | App.tsx:85-117 | when no project has the pending id, the projects, the log and the board are unchanged |
| Transitions.CommitOneMatchLogs | App.tsx:85-103 | when exactly one project has the pending id, the commit prepends exactly one entry, the one for that project and user |
| Transitions.CommitOneMatchResources | App.tsx:97-99 | when exactly one project has the pending id, a shortage escalates the board with its name and other commands leave the board unchanged |
| Transitions.CommitResourcesOnlyOnShortage | App.tsx:97-99 | only a shortage report changes the resource board |
| Transitions.CommitLogsWithinCapacity | App.tsx:75 | after a commit that matched any project, the log has between 1 and 50 entries, whatever its length before |
| Transitions.AdvancePreservesConsistency | App.tsx:88-93 | a progress step keeps every consistent project consistent, including a finished one whose saved progress is above 100 |
| Transitions.AdvanceRestoresConsistency | App.tsx:88-93 | a progress step that reaches 25 leaves the phase in agreement with the progress, whatever it was before |
| Transitions.SeedDataInconsistent | constants.tsx:12-34 | the first two seed projects are behind their own phase's threshold, so they do not agree with their phase |
| Transitions.BootstrapLogs | App.tsx:37-48 | an empty log gets exactly the system bootstrap entry; a non-empty log is kept; the result is never empty |
| Transitions.ProjectFromDraft | App.tsx:120-125 | the new project is the draft with the given id, health normal and no lastUpdated |
| Transitions.CreationEntry | App.tsx:127 | the creation log entry names the new project and is authored by 管理端 |
| Text.IsSpace | components/AddProjectModal.tsx:27-28 | the characters `trim` strips; a comma is not one of them |
| Text.IsSpaceExactly | components/AddProjectModal.tsx:27-28 | a character is white space to `trim` exactly when it is one of the 25 ECMAScript white-space and line-terminator code points |
| Text.TrimStart | components/AddProjectModal.tsx:27-28 | the result is a suffix of the input; only white space was removed; it does not start with white space |
| Text.TrimEnd | components/AddProjectModal.tsx:27-28 | the result is a prefix of the input; only white space was removed; it does not end with white space |
| Text.Trim | components/AddProjectModal.tsx:27-28 | the result is a slice of the input with only white space on either side of it, and has no white space at either end |
| Text.TrimIdempotent | components/AddProjectModal.tsx:27-28 | trimming a trimmed string changes nothing |
| Text.TrimKeepsTrimmed | components/AddProjectModal.tsx:27-28 | a string with no white space at either end is its own trim |
| Text.Split | components/AddProjectModal.tsx:27-28 | the segments number one more than the commas, and none of them contains a comma |
| Text.JoinSplit | components/AddProjectModal.tsx:27-28 | joining the segments with the separator gives the input back |
| Text.SplitJoin | components/AddProjectModal.tsx:27-28 | splitting a join of one or more separator-free segments gives the segments back |
| Text.NatToString | App.tsx:95 | a number renders as one or more decimal digits with no leading zero |
| Text.IntToString | App.tsx:95 | the rendering starts with a minus sign exactly for a negative number, and every other character is a decimal digit |
| Text.IntToStringRoundTrip | App.tsx:95 | the decimal rendering of a progress value reads back as that value |
| ProjectForm.SplitTrimmed | components/AddProjectModal.tsx:27-28 | one entry per comma plus one; entries contain no comma and have no white space at either end |
| ProjectForm.SplitTrimmedAt | components/AddProjectModal.tsx:27-28 | entry k is the k-th comma-separated segment, trimmed, so order is preserved |
| ProjectForm.SplitTrimmedRoundTrip | components/AddProjectModal.tsx:27-28 | a list typed without white space, joined with commas, gives back what was typed |
| ProjectForm.HandleSubmit | components/AddProjectModal.tsx:18-31 | there is no draft exactly when the name is empty; the draft has the name unchanged, progress 0, phase 現場勘查 and status active; nextStep is the input if non-empty and otherwise 初次現勘與圖面確認; support is empty for empty input and otherwise the trimmed segments; the team is [待指派] for empty input, otherwise the trimmed segments, and never empty |
| ProjectForm.WhitespaceNameAccepted | components/AddProjectModal.tsx:20-29 | every non-empty name made only of white space is accepted and kept untrimmed, with the default next step, no support and the placeholder team |
| Session.Transition | App.tsx:85-113 | the per-project step, written with the source's chains of reassignments, computes exactly ApplyCommand |
| Session.Commit | App.tsx:85-116 | the loop over the projects computes exactly the projects, log and board given by CommitProjects, CommitLogs and CommitResources |
| Session.Visit | App.tsx:86-115 | a project with the pending id becomes ApplyCommand of it, logs its CommandEntry through AddLog, and for a shortage escalates the board through FlagPurchasing; any other project, the log and the board come back unchanged |
| Session.CommitToUniqueProject | App.tsx:82-118 | when exactly one project has the pending id, only that project changes, one entry naming it and the user is prepended with log-length rule min(old + 1, 50), and only a shortage changes the board |
| Session.WarRoom.constructor | App.tsx:13-48 | projects come from the saved snapshot or the seed projects; the log comes from the snapshot or is empty, and gets the bootstrap entry when empty, so it is never empty; a saved log over 50 entries survives unchanged; the seed resource board; nothing pending |
| Session.WarRoom.Trigger | App.tsx:78-80 | the command becomes pending, replacing any pending one; nothing else changes; the log stays non-empty |
| Session.WarRoom.Cancel | App.tsx:215 | the pending command is discarded; projects, log and board are unchanged; the log stays non-empty |
| Session.WarRoom.Confirm | App.tsx:82-118 | with nothing pending, nothing changes; otherwise the state becomes the commit of the pending command and the pending command is cleared, even when no project matched; the log stays non-empty, and stays within 50 entries if it was |
| Session.WarRoom.AddNewProject | App.tsx:120-129 | the new project is appended at the end and one creation entry is logged; the board and the pending command are unchanged; the log stays non-empty, and stays within 50 entries if it was |
| Session.WarRoom.SubmitForm | components/AddProjectModal.tsx:18-31 | an empty name changes nothing; any other form appends the project it describes and logs its creation |

## Left out

- Persistence is not modelled. The local-storage reads and writes and `JSON.parse` (App.tsx:13-21, 32-35) are browser I/O. The loaded snapshot is an opaque `Option` parameter of the constructor, with `None` standing for absent data.
- The advisory text service is not modelled: `services/geminiService.ts`, `refreshBriefing` and `generateReport` with their loading flags (App.tsx:49-64). They are network calls whose only logic is a fallback string.
- Rendering is not modelled: the markup of App.tsx and the `ProjectCard`, `Sidebar` and `UserSelector` components. The confirming user is a parameter, standing for the entry picked from `USERS`.
- The modal visibility flags (`showAddModal`, App.tsx:25, 128, 163, 222) and the form's input binding (`setFormData`) are UI state only.
- Random ids and current timestamps are parameters. One commit gives all of its log entries the same id and timestamp parameters. If several projects share the pending id, the source draws a fresh random id for each of their entries.
- `lastUpdated` is declared but no transition of the source ever sets it.
- React scheduling is not modelled: deferred updaters, batching, and the double invocation of updaters in development mode. The model applies each command's effects at once and in the order the source issues them.
- The pending phase value is typed `any` in the source. The model gives it the phase type, which is what the project card passes.
- Progress is a whole number. Fractional values that a hand-edited saved snapshot could hold are not modelled.
- Status levels other than URGENT, and the project status values, are never changed by any transition. They exist only as data.
