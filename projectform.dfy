/** The project-creation form (components/AddProjectModal.tsx, `handleSubmit`):
    turns the four text fields into a project draft, or into nothing when the
    name is empty. */
module ProjectForm {
  import opened Types
  import opened Text

  /** The text of the four form fields as the user typed it. */
  datatype FormData = FormData(name: string, nextStep: string, supportNeeded: string, responsibleTeam: string)

  const DEFAULT_NEXT_STEP: string := "初次現勘與圖面確認"
  const UNASSIGNED: string := "待指派"

  /** `s.split(',').map(s => s.trim())`: the comma-separated segments of `s`,
      in order, each trimmed. */
  function SplitTrimmed(s: string): (r: seq<string>)
    ensures |r| == Count(s, ',') + 1
    ensures forall k :: 0 <= k < |r| ==> ',' !in r[k]
    ensures forall k :: 0 <= k < |r| ==> r[k] != [] ==> !IsSpace(r[k][0]) && !IsSpace(r[k][|r[k]| - 1])
  {
    var parts := Split(s, ',');
    var r := seq(|parts|, k requires 0 <= k < |parts| => Trim(parts[k]));
    forall k | 0 <= k < |r| ensures ',' !in r[k] {
      TrimNoNewChars(parts[k], ',');
    }
    r
  }

  /** Trimming only removes characters. */
  lemma TrimNoNewChars(s: string, c: char)
    requires c !in s
    ensures c !in Trim(s)
  {
    var r := Trim(s);
    var i :| 0 <= i <= |s| - |r| && r == s[i..][..|r|];
  }

  /** Entry `k` of a split-and-trimmed list is the trimmed `k`-th segment. */
  lemma SplitTrimmedAt(s: string, k: nat)
    requires k < |Split(s, ',')|
    ensures |SplitTrimmed(s)| == |Split(s, ',')| && SplitTrimmed(s)[k] == Trim(Split(s, ',')[k])
  {
  }

  /** A list typed without white space reads back, joined with commas, as the
      text the user typed. */
  lemma SplitTrimmedRoundTrip(s: string)
    requires forall k :: 0 <= k < |s| ==> !IsSpace(s[k])
    ensures Join(SplitTrimmed(s), ',') == s
  {
    var parts := Split(s, ',');
    forall k | 0 <= k < |parts| ensures Trim(parts[k]) == parts[k] {
      var seg := parts[k];
      SegmentsOfSpaceless(s, k);
      TrimKeepsTrimmed(seg);
    }
    assert SplitTrimmed(s) == parts;
    JoinSplit(s, ',');
  }

  /** Every segment of a string without white space is without white space. */
  lemma {:induction false} SegmentsOfSpaceless(s: string, k: nat)
    requires forall j :: 0 <= j < |s| ==> !IsSpace(s[j])
    requires k < |Split(s, ',')|
    ensures forall j :: 0 <= j < |Split(s, ',')[k]| ==> !IsSpace(Split(s, ',')[k][j])
    decreases |s|
  {
    if s != [] {
      var rest := Split(s[1..], ',');
      if s[0] == ',' {
        if k > 0 { SegmentsOfSpaceless(s[1..], k - 1); }
      } else if k == 0 {
        SegmentsOfSpaceless(s[1..], 0);
        assert Split(s, ',')[0] == [s[0]] + rest[0];
      } else {
        SegmentsOfSpaceless(s[1..], k);
      }
    }
  }

  /** A list field: empty text gives the default list, any other text the
      split-and-trimmed segments. */
  function ListField(s: string, default: seq<string>): seq<string>
  {
    if s == "" then default else SplitTrimmed(s)
  }

  /** `handleSubmit`: no draft for an empty name (white space alone is a name);
      otherwise a fresh active draft at the start of the lifecycle, the next
      step defaulted, support split into a possibly empty list and the team
      into a list that is never empty. */
  function HandleSubmit(f: FormData): (r: Option<ProjectDraft>)
    ensures r.None? <==> f.name == ""
    ensures r.Some? ==> r.value.name == f.name && r.value.progress == 0
                        && r.value.currentPhase == SiteSurvey && r.value.status == StatusActive
    ensures r.Some? ==> r.value.nextStep == if f.nextStep != "" then f.nextStep else DEFAULT_NEXT_STEP
    ensures r.Some? && f.supportNeeded == "" ==> r.value.supportNeeded == []
    ensures r.Some? && f.supportNeeded != "" ==> |r.value.supportNeeded| == Count(f.supportNeeded, ',') + 1
    ensures r.Some? && f.supportNeeded != "" ==>
              forall k :: 0 <= k < |r.value.supportNeeded| ==>
                r.value.supportNeeded[k] == Trim(Split(f.supportNeeded, ',')[k])
    ensures r.Some? && f.responsibleTeam == "" ==> r.value.responsibleTeam == [UNASSIGNED]
    ensures r.Some? && f.responsibleTeam != "" ==> |r.value.responsibleTeam| == Count(f.responsibleTeam, ',') + 1
    ensures r.Some? && f.responsibleTeam != "" ==>
              forall k :: 0 <= k < |r.value.responsibleTeam| ==>
                r.value.responsibleTeam[k] == Trim(Split(f.responsibleTeam, ',')[k])
    ensures r.Some? ==> |r.value.responsibleTeam| >= 1
  {
    if f.name == "" then None
    else Some(ProjectDraft(
      f.name,
      0,
      SiteSurvey,
      if f.nextStep == "" then DEFAULT_NEXT_STEP else f.nextStep,
      ListField(f.supportNeeded, []),
      ListField(f.responsibleTeam, [UNASSIGNED]),
      StatusActive))
  }

  /** A name made only of white space is a name: the form accepts it and
      keeps it untrimmed, and empty list fields give an empty support list
      and the placeholder team. */
  lemma WhitespaceNameAccepted(name: string)
    requires name != [] && forall k :: 0 <= k < |name| ==> IsSpace(name[k])
    ensures var r := HandleSubmit(FormData(name, "", "", ""));
            r.Some? && r.value.name == name && Trim(name) == [] && r.value.nextStep == DEFAULT_NEXT_STEP
            && r.value.supportNeeded == [] && r.value.responsibleTeam == [UNASSIGNED]
  {
  }
}
