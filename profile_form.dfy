/**
 * The profile form of the client's edit dialog: the record being edited,
 * the helpers that replace one of its fields or edit one of its lists, and
 * the guard run before the record is handed to the save callback.
 *
 * Each helper builds a new value and hands it to the state setter, so each
 * is a function from the current form to the next one.
 */
module ProfileForm {
  import opened Wrappers
  import Schema

  /** A project as the client holds it: any key may be missing once a partial record has been merged in. */
  datatype Project = Project(
    title: Option<string>,
    description: Option<string>,
    link: Option<string>,
    skills: Option<seq<string>>)

  /** The record being edited; `_id` and the timestamps are not part of the form's logic. */
  datatype Profile = Profile(
    name: string,
    email: string,
    education: Option<string>,
    skills: Option<seq<string>>,
    projects: Option<seq<Project>>,
    work: Option<seq<Schema.Work>>,
    links: Option<Schema.Links>)

  /** The form shown for a new profile. */
  const EmptyProfile := Profile("", "", Some(""), Some([]), Some([]), Some([]), Some(Schema.Links(None, None, None)))

  /** The entry `addProject` appends. */
  const BlankProject := Project(Some(""), Some(""), Some(""), Some([]))

  /** The entry `addWork` appends. */
  const BlankWork := Schema.Work(Some(""), Some(""))

  /** An object with no keys, what `next[i] || {}` gives for a missing entry. */
  const NoProject := Project(None, None, None, None)
  const NoWork := Schema.Work(None, None)

  // ---------------------------------------------------------------------------
  // setField: one key of the form and its new value.

  datatype Field = Name | Email | Education | Skills | Projects | Work | Links

  /** A key together with a value of that key's type. */
  datatype Value =
    | NameIs(name: string)
    | EmailIs(email: string)
    | EducationIs(education: Option<string>)
    | SkillsIs(skills: Option<seq<string>>)
    | ProjectsIs(projects: Option<seq<Project>>)
    | WorkIs(work: Option<seq<Schema.Work>>)
    | LinksIs(links: Option<Schema.Links>)
  {
    function Key(): Field {
      match this
      case NameIs(_) => Name
      case EmailIs(_) => Email
      case EducationIs(_) => Education
      case SkillsIs(_) => Skills
      case ProjectsIs(_) => Projects
      case WorkIs(_) => Work
      case LinksIs(_) => Links
    }
  }

  /** The value the form holds under key `k`. */
  function Get(f: Profile, k: Field): (v: Value)
    ensures v.Key() == k
  {
    match k
    case Name => NameIs(f.name)
    case Email => EmailIs(f.email)
    case Education => EducationIs(f.education)
    case Skills => SkillsIs(f.skills)
    case Projects => ProjectsIs(f.projects)
    case Work => WorkIs(f.work)
    case Links => LinksIs(f.links)
  }

  /** `setField(k, v)`: the form with key `k` holding `v` and every other key as it was. */
  function SetField(f: Profile, v: Value): (r: Profile)
    ensures Get(r, v.Key()) == v
    ensures forall k :: k != v.Key() ==> Get(r, k) == Get(f, k)
  {
    match v
    case NameIs(x) => f.(name := x)
    case EmailIs(x) => f.(email := x)
    case EducationIs(x) => f.(education := x)
    case SkillsIs(x) => f.(skills := x)
    case ProjectsIs(x) => f.(projects := x)
    case WorkIs(x) => f.(work := x)
    case LinksIs(x) => f.(links := x)
  }

  /** Writing back what a key holds changes nothing. */
  lemma SetFieldGet(f: Profile, k: Field)
    ensures SetField(f, Get(f, k)) == f
  {
  }

  /** A later write to the same key replaces an earlier one. */
  lemma SetFieldTwice(f: Profile, v: Value, w: Value)
    requires v.Key() == w.Key()
    ensures SetField(SetField(f, v), w) == SetField(f, w)
  {
  }

  // ---------------------------------------------------------------------------
  // List edits.

  /** `xs || []`: a missing list reads as an empty one. */
  function OrEmpty<T>(xs: Option<seq<T>>): seq<T> {
    xs.GetOr([])
  }

  /** `r` is `s` with position `i` holding `v`: same length, every other position unchanged. */
  predicate ReplacedAt<T(==)>(r: seq<T>, s: seq<T>, i: int, v: T) {
    |r| == |s| && 0 <= i < |s| && r[i] == v && forall j :: 0 <= j < |s| && j != i ==> r[j] == s[j]
  }

  /**
   * Assigning position `i` of a copy: an index in range is overwritten and the index
   * just past the end appends; a negative index names no element, so the
   * elements are unchanged.
   */
  function SetAt<T(==)>(s: seq<T>, i: int, v: T): (r: seq<T>)
    requires i <= |s|
    ensures 0 <= i < |s| ==> ReplacedAt(r, s, i, v)
    ensures i == |s| ==> |r| == |s| + 1 && r[..|s|] == s && r[|s|] == v
    ensures i < 0 ==> r == s
  {
    if i < 0 then s else if i < |s| then s[i := v] else s + [v]
  }

  /** The filter on positions: every element whose position is not `i`, in order. */
  function RemoveAt<T>(s: seq<T>, i: int): (r: seq<T>)
    ensures |r| == if 0 <= i < |s| then |s| - 1 else |s|
  {
    if s == [] then []
    else RemoveAt(s[..|s| - 1], i) + if |s| - 1 == i then [] else [s[|s| - 1]]
  }

  /** Removing a position in range closes the gap: the rest keep their order. */
  lemma {:induction false} RemoveAtInRange<T>(s: seq<T>, i: int)
    requires 0 <= i < |s|
    ensures RemoveAt(s, i) == s[..i] + s[i + 1..]
  {
    var n := |s|;
    if i == n - 1 {
      RemoveAtOutOfRange(s[..n - 1], i);
    } else {
      RemoveAtInRange(s[..n - 1], i);
      assert s[..n - 1][..i] == s[..i];
      assert s[..n - 1][i + 1..] + [s[n - 1]] == s[i + 1..];
    }
  }

  /** Removing a position outside the list keeps it whole. */
  lemma {:induction false} RemoveAtOutOfRange<T>(s: seq<T>, i: int)
    requires i < 0 || |s| <= i
    ensures RemoveAt(s, i) == s
  {
    if s != [] {
      RemoveAtOutOfRange(s[..|s| - 1], i);
      assert s == s[..|s| - 1] + [s[|s| - 1]];
    }
  }

  /** Removing the entry just appended gives back the list: an add is undone by a remove. */
  lemma RemoveAfterAppend<T>(s: seq<T>, x: T)
    ensures RemoveAt(s + [x], |s|) == s
  {
    RemoveAtInRange(s + [x], |s|);
    assert (s + [x])[..|s|] == s;
  }

  /** `{...base, ...patch}` for a project: the keys the patch holds win, the others are kept. */
  function MergeProject(base: Project, patch: Project): Project {
    Project(
      if patch.title.Some? then patch.title else base.title,
      if patch.description.Some? then patch.description else base.description,
      if patch.link.Some? then patch.link else base.link,
      if patch.skills.Some? then patch.skills else base.skills)
  }

  /** `{...base, ...patch}` for a work entry. */
  function MergeWork(base: Schema.Work, patch: Schema.Work): Schema.Work {
    Schema.Work(
      if patch.role.Some? then patch.role else base.role,
      if patch.company.Some? then patch.company else base.company)
  }

  /**
   * Spreading behaves as an update of keys: an empty patch changes nothing,
   * a repeated patch changes nothing more, two patches in a row act as one
   * patch (the later's keys winning), and a patch holding every key replaces
   * the entry outright.
   */
  lemma MergeProjectLaws(base: Project, p: Project, q: Project)
    ensures MergeProject(base, NoProject) == base
    ensures MergeProject(MergeProject(base, p), p) == MergeProject(base, p)
    ensures MergeProject(MergeProject(base, p), q) == MergeProject(base, MergeProject(p, q))
    ensures p.title.Some? && p.description.Some? && p.link.Some? && p.skills.Some? ==> MergeProject(base, p) == p
  {
  }

  lemma MergeWorkLaws(base: Schema.Work, p: Schema.Work, q: Schema.Work)
    ensures MergeWork(base, NoWork) == base
    ensures MergeWork(MergeWork(base, p), p) == MergeWork(base, p)
    ensures MergeWork(MergeWork(base, p), q) == MergeWork(base, MergeWork(p, q))
    ensures p.role.Some? && p.company.Some? ==> MergeWork(base, p) == p
  {
  }

  /** The entry at `i` merged with `patch` (an empty object stands in for an entry past the end). */
  function PatchProjectAt(ps: seq<Project>, i: int, patch: Project): (r: seq<Project>)
    requires i <= |ps|
    ensures 0 <= i < |ps| ==> ReplacedAt(r, ps, i, MergeProject(ps[i], patch))
    ensures i == |ps| ==> r == ps + [MergeProject(NoProject, patch)]
    ensures i < 0 ==> r == ps
  {
    SetAt(ps, i, MergeProject(if 0 <= i < |ps| then ps[i] else NoProject, patch))
  }

  /** The same for the work list: the entry at `i` merged with `patch`. */
  function PatchWorkAt(ws: seq<Schema.Work>, i: int, patch: Schema.Work): (r: seq<Schema.Work>)
    requires i <= |ws|
    ensures 0 <= i < |ws| ==> ReplacedAt(r, ws, i, MergeWork(ws[i], patch))
    ensures i == |ws| ==> r == ws + [MergeWork(NoWork, patch)]
    ensures i < 0 ==> r == ws
  {
    SetAt(ws, i, MergeWork(if 0 <= i < |ws| then ws[i] else NoWork, patch))
  }

  // ---------------------------------------------------------------------------
  // The helpers, each a `setField` of one rebuilt list.

  /** `updateSkill(i, v)`: skill `i` becomes `v`; nothing else in the form changes. */
  function UpdateSkill(f: Profile, i: int, v: string): (r: Profile)
    requires i <= |OrEmpty(f.skills)|
    ensures forall k :: k != Skills ==> Get(r, k) == Get(f, k)
    ensures r.skills.Some?
    ensures 0 <= i < |OrEmpty(f.skills)| ==> ReplacedAt(r.skills.value, OrEmpty(f.skills), i, v)
  {
    SetField(f, SkillsIs(Some(SetAt(OrEmpty(f.skills), i, v))))
  }

  /** `addSkill()`: one empty skill after the existing ones; a missing list counts as empty. */
  function AddSkill(f: Profile): (r: Profile)
    ensures forall k :: k != Skills ==> Get(r, k) == Get(f, k)
    ensures r.skills.Some? && |r.skills.value| == |OrEmpty(f.skills)| + 1
    ensures r.skills.value[..|OrEmpty(f.skills)|] == OrEmpty(f.skills)
    ensures r.skills.value[|OrEmpty(f.skills)|] == ""
  {
    SetField(f, SkillsIs(Some(OrEmpty(f.skills) + [""])))
  }

  /** `removeSkill(i)`: the skills without position `i`. */
  function RemoveSkill(f: Profile, i: int): (r: Profile)
    ensures forall k :: k != Skills ==> Get(r, k) == Get(f, k)
    ensures r.skills == Some(RemoveAt(OrEmpty(f.skills), i))
  {
    SetField(f, SkillsIs(Some(RemoveAt(OrEmpty(f.skills), i))))
  }

  /** `addProject()`: a blank project after the existing ones. */
  function AddProject(f: Profile): (r: Profile)
    ensures forall k :: k != Projects ==> Get(r, k) == Get(f, k)
    ensures r.projects == Some(OrEmpty(f.projects) + [BlankProject])
  {
    SetField(f, ProjectsIs(Some(OrEmpty(f.projects) + [BlankProject])))
  }

  /** `updateProject(i, p)`: project `i` takes the keys `p` holds and keeps its others. */
  function UpdateProject(f: Profile, i: int, p: Project): (r: Profile)
    requires i <= |OrEmpty(f.projects)|
    ensures forall k :: k != Projects ==> Get(r, k) == Get(f, k)
    ensures r.projects.Some?
    ensures 0 <= i < |OrEmpty(f.projects)| ==>
      ReplacedAt(r.projects.value, OrEmpty(f.projects), i, MergeProject(OrEmpty(f.projects)[i], p))
  {
    SetField(f, ProjectsIs(Some(PatchProjectAt(OrEmpty(f.projects), i, p))))
  }

  /** `removeProject(i)`: the projects without position `i`. */
  function RemoveProject(f: Profile, i: int): (r: Profile)
    ensures forall k :: k != Projects ==> Get(r, k) == Get(f, k)
    ensures r.projects == Some(RemoveAt(OrEmpty(f.projects), i))
  {
    SetField(f, ProjectsIs(Some(RemoveAt(OrEmpty(f.projects), i))))
  }

  /** `addWork()`: a blank work entry after the existing ones. */
  function AddWork(f: Profile): (r: Profile)
    ensures forall k :: k != Work ==> Get(r, k) == Get(f, k)
    ensures r.work == Some(OrEmpty(f.work) + [BlankWork])
  {
    SetField(f, WorkIs(Some(OrEmpty(f.work) + [BlankWork])))
  }

  /** `updateWork(i, w)`: work entry `i` takes the keys `w` holds and keeps its others. */
  function UpdateWork(f: Profile, i: int, w: Schema.Work): (r: Profile)
    requires i <= |OrEmpty(f.work)|
    ensures forall k :: k != Work ==> Get(r, k) == Get(f, k)
    ensures r.work.Some?
    ensures 0 <= i < |OrEmpty(f.work)| ==>
      ReplacedAt(r.work.value, OrEmpty(f.work), i, MergeWork(OrEmpty(f.work)[i], w))
  {
    SetField(f, WorkIs(Some(PatchWorkAt(OrEmpty(f.work), i, w))))
  }

  /** `removeWork(i)`: the work entries without position `i`. */
  function RemoveWork(f: Profile, i: int): (r: Profile)
    ensures forall k :: k != Work ==> Get(r, k) == Get(f, k)
    ensures r.work == Some(RemoveAt(OrEmpty(f.work), i))
  {
    SetField(f, WorkIs(Some(RemoveAt(OrEmpty(f.work), i))))
  }

  /** Removing the skill just added gives back the form, once it has a skills list. */
  lemma RemoveSkillUndoesAdd(f: Profile)
    requires f.skills.Some?
    ensures RemoveSkill(AddSkill(f), |f.skills.value|) == f
  {
    RemoveAfterAppend(f.skills.value, "");
  }

  /** Removing the project just added gives back the form, once it has a projects list. */
  lemma RemoveProjectUndoesAdd(f: Profile)
    requires f.projects.Some?
    ensures RemoveProject(AddProject(f), |f.projects.value|) == f
  {
    RemoveAfterAppend(f.projects.value, BlankProject);
  }

  /** Removing the work entry just added gives back the form, once it has a work list. */
  lemma RemoveWorkUndoesAdd(f: Profile)
    requires f.work.Some?
    ensures RemoveWork(AddWork(f), |f.work.value|) == f
  {
    RemoveAfterAppend(f.work.value, BlankWork);
  }

  /** Removing position `i` in range: one entry fewer, the others in their order. */
  lemma RemoveSkillInRange(f: Profile, i: int)
    requires 0 <= i < |OrEmpty(f.skills)|
    ensures var s := OrEmpty(f.skills); RemoveSkill(f, i).skills == Some(s[..i] + s[i + 1..])
  {
    RemoveAtInRange(OrEmpty(f.skills), i);
  }

  lemma RemoveProjectInRange(f: Profile, i: int)
    requires 0 <= i < |OrEmpty(f.projects)|
    ensures var s := OrEmpty(f.projects); RemoveProject(f, i).projects == Some(s[..i] + s[i + 1..])
  {
    RemoveAtInRange(OrEmpty(f.projects), i);
  }

  lemma RemoveWorkInRange(f: Profile, i: int)
    requires 0 <= i < |OrEmpty(f.work)|
    ensures var s := OrEmpty(f.work); RemoveWork(f, i).work == Some(s[..i] + s[i + 1..])
  {
    RemoveAtInRange(OrEmpty(f.work), i);
  }

  /** Updating an entry twice with the same patch is updating it once. */
  lemma UpdateProjectIdempotent(f: Profile, i: int, p: Project)
    requires 0 <= i < |OrEmpty(f.projects)|
    ensures UpdateProject(UpdateProject(f, i, p), i, p) == UpdateProject(f, i, p)
  {
    var ps := OrEmpty(f.projects);
    var m := MergeProject(ps[i], p);
    MergeProjectLaws(ps[i], p, p);
    assert UpdateProject(f, i, p).projects == Some(ps[i := m]);
    assert ps[i := m][i := MergeProject(m, p)] == ps[i := m];
  }

  // ---------------------------------------------------------------------------
  // onSubmit.

  const RequiredMessage := "Name and email are required"
  const FailedMessage := "Save failed"

  /**
   * What a submission does: the record handed to the save callback (if
   * any), the alert shown (if any), and the values written to the saving
   * flag, in order.
   */
  datatype Submission = Submission(sent: Option<Profile>, alert: Option<string>, savingWrites: seq<bool>)

  /**
   * `onSubmit`: raise the saving flag; an empty name or email alerts and
   * returns without saving; otherwise the form goes to the save callback,
   * whose failure (`saveFails`, decided outside) alerts. The flag is lowered
   * on every path, twice on the early return (once by hand, once by
   * `finally`).
   */
  function Submit(f: Profile, saveFails: bool): (r: Submission)
    ensures |r.savingWrites| >= 2 && r.savingWrites[0] && !r.savingWrites[|r.savingWrites| - 1]
    ensures r.sent.Some? <==> f.name != "" && f.email != ""
    ensures r.sent.Some? ==> r.sent.value == f
    ensures r.alert == Some(RequiredMessage) <==> r.sent.None?
    ensures r.alert == Some(FailedMessage) <==> r.sent.Some? && saveFails
  {
    if f.name == "" || f.email == "" then Submission(None, Some(RequiredMessage), [true, false, false])
    else if saveFails then Submission(Some(f), Some(FailedMessage), [true, false])
    else Submission(Some(f), None, [true, false])
  }

  /** The empty form is never sent, whatever the callback would do. */
  lemma EmptyFormNotSent(saveFails: bool)
    ensures Submit(EmptyProfile, saveFails).sent.None?
  {
  }
}
