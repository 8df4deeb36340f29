/**
 * The profile collection's schema: the document shapes of the server's
 * `types.ts`, and the constraints `profile.schema.ts` declares on them
 * (`required`, `unique`, `trim`, `timestamps`, no `_id` on links and projects).
 */
module Schema {
  import opened Wrappers
  import opened Text

  /** `linksSchema`: three optional URLs; a sub-record with no identifier of its own. */
  datatype Links = Links(github: Option<string>, linkedin: Option<string>, portfolio: Option<string>)

  /**
   * `projectSchema`: a sub-record with no identifier of its own. `skills` is an
   * array path, which the store defaults to the empty array when it is left out.
   */
  datatype Project = Project(title: Option<string>, description: Option<string>, link: Option<string>, skills: seq<string>)

  /** One entry of the `work` array (the store also gives each entry an `_id`, which is not modelled). */
  datatype Work = Work(role: Option<string>, company: Option<string>)

  /** The seven client-visible fields of a stored profile. */
  datatype Profile = Profile(
    name: string,
    email: string,
    education: Option<string>,
    skills: seq<string>,
    projects: seq<Project>,
    work: seq<Work>,
    links: Option<Links>)

  /** A stored document: the profile plus the identifier and the timestamps the store maintains. */
  datatype Document = Document(id: nat, createdAt: nat, updatedAt: nat, profile: Profile)

  /** A request body: any of the seven fields may be left out. */
  datatype Body = Body(
    name: Option<string>,
    email: Option<string>,
    education: Option<string>,
    skills: Option<seq<string>>,
    projects: Option<seq<Project>>,
    work: Option<seq<Work>>,
    links: Option<Links>)

  // ---------------------------------------------------------------------------
  // `trim: true`: every string path is stored trimmed.

  predicate OptTrimmed(o: Option<string>) {
    o.Some? ==> Trimmed(o.value)
  }

  predicate AllTrimmed(s: seq<string>) {
    forall i :: 0 <= i < |s| ==> Trimmed(s[i])
  }

  predicate LinksTrimmed(l: Links) {
    OptTrimmed(l.github) && OptTrimmed(l.linkedin) && OptTrimmed(l.portfolio)
  }

  predicate ProjectTrimmed(p: Project) {
    OptTrimmed(p.title) && OptTrimmed(p.description) && OptTrimmed(p.link) && AllTrimmed(p.skills)
  }

  predicate WorkTrimmed(w: Work) {
    OptTrimmed(w.role) && OptTrimmed(w.company)
  }

  predicate ProfileTrimmed(p: Profile) {
    Trimmed(p.name) && Trimmed(p.email) && OptTrimmed(p.education) && AllTrimmed(p.skills) &&
    (forall i :: 0 <= i < |p.projects| ==> ProjectTrimmed(p.projects[i])) &&
    (forall i :: 0 <= i < |p.work| ==> WorkTrimmed(p.work[i])) &&
    (p.links.Some? ==> LinksTrimmed(p.links.value))
  }

  predicate BodyTrimmed(b: Body) {
    OptTrimmed(b.name) && OptTrimmed(b.email) && OptTrimmed(b.education) &&
    (b.skills.Some? ==> AllTrimmed(b.skills.value)) &&
    (b.projects.Some? ==> forall i :: 0 <= i < |b.projects.value| ==> ProjectTrimmed(b.projects.value[i])) &&
    (b.work.Some? ==> forall i :: 0 <= i < |b.work.value| ==> WorkTrimmed(b.work.value[i])) &&
    (b.links.Some? ==> LinksTrimmed(b.links.value))
  }

  function TrimOpt(o: Option<string>): Option<string> {
    match o
    case None => None
    case Some(s) => Some(Trim(s))
  }

  function TrimEach(s: seq<string>): seq<string> {
    seq(|s|, i requires 0 <= i < |s| => Trim(s[i]))
  }

  function CastLinks(l: Links): Links {
    Links(TrimOpt(l.github), TrimOpt(l.linkedin), TrimOpt(l.portfolio))
  }

  function CastProject(p: Project): Project {
    Project(TrimOpt(p.title), TrimOpt(p.description), TrimOpt(p.link), TrimEach(p.skills))
  }

  function CastWork(w: Work): Work {
    Work(TrimOpt(w.role), TrimOpt(w.company))
  }

  function CastProjects(ps: seq<Project>): (r: seq<Project>)
    ensures |r| == |ps| && forall i :: 0 <= i < |r| ==> ProjectTrimmed(r[i])
    ensures forall i :: 0 <= i < |r| ==>
      r[i].title == TrimOpt(ps[i].title) && r[i].description == TrimOpt(ps[i].description) &&
      r[i].link == TrimOpt(ps[i].link) && r[i].skills == TrimEach(ps[i].skills)
  {
    seq(|ps|, i requires 0 <= i < |ps| => CastProject(ps[i]))
  }

  function CastWorks(ws: seq<Work>): (r: seq<Work>)
    ensures |r| == |ws| && forall i :: 0 <= i < |r| ==> WorkTrimmed(r[i])
    ensures forall i :: 0 <= i < |r| ==> r[i].role == TrimOpt(ws[i].role) && r[i].company == TrimOpt(ws[i].company)
  {
    seq(|ws|, i requires 0 <= i < |ws| => CastWork(ws[i]))
  }

  /**
   * What the schema's setters make of a body, on create and on update alike:
   * every string present is trimmed, no path is added or dropped
   * (`CastBodyValues`, `CastBodyTrimmed`).
   */
  function CastBody(b: Body): (r: Body)
    ensures r.name.Some? == b.name.Some? && r.email.Some? == b.email.Some?
  {
    Body(
      TrimOpt(b.name), TrimOpt(b.email), TrimOpt(b.education),
      if b.skills.Some? then Some(TrimEach(b.skills.value)) else None,
      if b.projects.Some? then Some(CastProjects(b.projects.value)) else None,
      if b.work.Some? then Some(CastWorks(b.work.value)) else None,
      if b.links.Some? then Some(CastLinks(b.links.value)) else None)
  }

  /** Each path of the cast body holds the input's value at that path, trimmed; an absent path stays absent. */
  lemma CastBodyValues(b: Body)
    ensures var r := CastBody(b);
      r.name == TrimOpt(b.name) && r.email == TrimOpt(b.email) && r.education == TrimOpt(b.education)
    ensures var r := CastBody(b);
      r.skills.Some? == b.skills.Some? && (b.skills.Some? ==> r.skills.value == TrimEach(b.skills.value))
    ensures var r := CastBody(b);
      r.projects.Some? == b.projects.Some? && (b.projects.Some? ==> r.projects.value == CastProjects(b.projects.value))
    ensures var r := CastBody(b);
      r.work.Some? == b.work.Some? && (b.work.Some? ==> r.work.value == CastWorks(b.work.value))
    ensures var r := CastBody(b);
      r.links.Some? == b.links.Some? && (b.links.Some? ==> r.links.value == CastLinks(b.links.value))
  {
  }

  /** Every string the setters leave in a body is trimmed. */
  lemma CastBodyTrimmed(b: Body)
    ensures BodyTrimmed(CastBody(b))
  {
  }

  /** The setters leave a body that is already trimmed as it is. */
  lemma CastTrimmedBody(b: Body)
    requires BodyTrimmed(b)
    ensures CastBody(b) == b
  {
    TrimOptTrimmed(b.name);
    TrimOptTrimmed(b.email);
    TrimOptTrimmed(b.education);
    if b.skills.Some? {
      TrimEachTrimmed(b.skills.value);
    }
    if b.projects.Some? {
      var ps := b.projects.value;
      forall i | 0 <= i < |ps| ensures CastProject(ps[i]) == ps[i] {
        CastTrimmedProject(ps[i]);
      }
      assert CastProjects(ps) == ps;
    }
    if b.work.Some? {
      var ws := b.work.value;
      forall i | 0 <= i < |ws| ensures CastWork(ws[i]) == ws[i] {
        TrimOptTrimmed(ws[i].role);
        TrimOptTrimmed(ws[i].company);
      }
      assert CastWorks(ws) == ws;
    }
    if b.links.Some? {
      var l := b.links.value;
      TrimOptTrimmed(l.github);
      TrimOptTrimmed(l.linkedin);
      TrimOptTrimmed(l.portfolio);
    }
  }

  lemma TrimOptTrimmed(o: Option<string>)
    requires OptTrimmed(o)
    ensures TrimOpt(o) == o
  {
  }

  lemma CastTrimmedProject(p: Project)
    requires ProjectTrimmed(p)
    ensures CastProject(p) == p
  {
    TrimOptTrimmed(p.title);
    TrimOptTrimmed(p.description);
    TrimOptTrimmed(p.link);
    TrimEachTrimmed(p.skills);
  }

  /** Trimming strings that are already trimmed changes none of them. */
  lemma TrimEachTrimmed(s: seq<string>)
    requires AllTrimmed(s)
    ensures TrimEach(s) == s
  {
    assert forall i :: 0 <= i < |s| ==> TrimEach(s)[i] == s[i];
  }

  // ---------------------------------------------------------------------------
  // `required: true`, checked when a document is created.

  /** A required string path: present and, after trimming, not empty. */
  predicate Given(o: Option<string>) {
    o.Some? && o.value != ""
  }

  /** The `required` constraints of the schema, on a body the setters have already trimmed. */
  predicate Required(b: Body) {
    Given(b.name) && Given(b.email) &&
    (b.projects.Some? ==> forall i :: 0 <= i < |b.projects.value| ==> Given(b.projects.value[i].title)) &&
    (b.work.Some? ==> forall i :: 0 <= i < |b.work.value| ==> Given(b.work.value[i].role) && Given(b.work.value[i].company))
  }

  /** The value a string path must hold for `required` to accept it: some non-space character. */
  predicate Filled(o: Option<string>) {
    o.Some? && !AllSpace(o.value)
  }

  /**
   * `required` rejects a body exactly when the name or email is missing or all
   * white space, or a project lacks a title, or a work entry lacks a role or a company.
   */
  lemma RequiredIffFilled(b: Body)
    ensures Required(CastBody(b)) <==>
      Filled(b.name) && Filled(b.email) &&
      (b.projects.Some? ==> forall i :: 0 <= i < |b.projects.value| ==> Filled(b.projects.value[i].title)) &&
      (b.work.Some? ==> forall i :: 0 <= i < |b.work.value| ==> Filled(b.work.value[i].role) && Filled(b.work.value[i].company))
  {
    CastBodyValues(b);
    GivenIffFilled(b.name);
    GivenIffFilled(b.email);
    if b.projects.Some? {
      TitlesGivenIffFilled(b.projects.value);
    }
    if b.work.Some? {
      WorkGivenIffFilled(b.work.value);
    }
  }

  lemma TitlesGivenIffFilled(ps: seq<Project>)
    ensures (forall i :: 0 <= i < |ps| ==> Given(CastProjects(ps)[i].title)) <==>
      (forall i :: 0 <= i < |ps| ==> Filled(ps[i].title))
  {
    forall i | 0 <= i < |ps| ensures Given(CastProjects(ps)[i].title) <==> Filled(ps[i].title) {
      GivenIffFilled(ps[i].title);
    }
  }

  lemma WorkGivenIffFilled(ws: seq<Work>)
    ensures (forall i :: 0 <= i < |ws| ==> Given(CastWorks(ws)[i].role) && Given(CastWorks(ws)[i].company)) <==>
      (forall i :: 0 <= i < |ws| ==> Filled(ws[i].role) && Filled(ws[i].company))
  {
    forall i | 0 <= i < |ws|
      ensures Given(CastWorks(ws)[i].role) <==> Filled(ws[i].role)
      ensures Given(CastWorks(ws)[i].company) <==> Filled(ws[i].company)
    {
      GivenIffFilled(ws[i].role);
      GivenIffFilled(ws[i].company);
    }
  }

  /** One required path: its trimmed value is non-empty exactly when it holds a non-space character. */
  lemma GivenIffFilled(o: Option<string>)
    ensures Given(TrimOpt(o)) <==> Filled(o)
  {
  }

  /** The profile `create` builds from a cast body; array paths default to the empty array. */
  function NewProfile(b: Body): (p: Profile)
    requires b.name.Some? && b.email.Some?
    ensures Some(p.name) == b.name && Some(p.email) == b.email && p.education == b.education && p.links == b.links
    ensures p.skills == b.skills.GetOr([]) && p.projects == b.projects.GetOr([]) && p.work == b.work.GetOr([])
  {
    Profile(b.name.value, b.email.value, b.education, b.skills.GetOr([]), b.projects.GetOr([]), b.work.GetOr([]), b.links)
  }

  /** An update document: Mongoose wraps it in `$set`, so the paths present overwrite and the rest stay. */
  function ApplySet(p: Profile, b: Body): Profile {
    Profile(
      b.name.GetOr(p.name), b.email.GetOr(p.email),
      if b.education.Some? then b.education else p.education,
      b.skills.GetOr(p.skills), b.projects.GetOr(p.projects), b.work.GetOr(p.work),
      if b.links.Some? then b.links else p.links)
  }

  /** Applying the same update twice is applying it once. */
  lemma ApplySetIdempotent(p: Profile, b: Body)
    ensures ApplySet(ApplySet(p, b), b) == ApplySet(p, b)
  {
  }

  /** An update that carries every path replaces the whole profile with what `create` would build. */
  lemma ApplySetFullBodyIsNew(p: Profile, b: Body)
    requires b.name.Some? && b.email.Some? && b.education.Some? && b.skills.Some?
    requires b.projects.Some? && b.work.Some? && b.links.Some?
    ensures ApplySet(p, b) == NewProfile(b)
  {
  }

  /** An update that carries no path leaves the profile as it was. */
  lemma ApplySetEmptyBody(p: Profile)
    ensures ApplySet(p, Body(None, None, None, None, None, None, None)) == p
  {
  }

  /** Setters and `$set` commute with trimming: a trimmed profile updated with a cast body stays trimmed. */
  lemma ApplySetKeepsTrimmed(p: Profile, b: Body)
    requires ProfileTrimmed(p) && BodyTrimmed(b)
    ensures ProfileTrimmed(ApplySet(p, b))
  {
  }

  /** A profile built from a cast body is stored trimmed. */
  lemma NewProfileTrimmed(b: Body)
    requires b.name.Some? && b.email.Some?
    ensures ProfileTrimmed(NewProfile(CastBody(b)))
  {
    CastBodyTrimmed(b);
  }

  // ---------------------------------------------------------------------------
  // `unique: true` on `email`, `projects.title` and `work.company`: unique
  // indexes over the whole collection, so they constrain distinct documents.

  /** No element twice. */
  predicate Distinct<T(==)>(s: seq<T>) {
    forall i, j :: 0 <= i < j < |s| ==> s[i] != s[j]
  }

  /** No project title of `p` is also a project title of `q`. */
  predicate TitlesApart(p: Profile, q: Profile) {
    forall i, j :: 0 <= i < |p.projects| && 0 <= j < |q.projects| && p.projects[i].title.Some? ==>
      p.projects[i].title != q.projects[j].title
  }

  /** No work company of `p` is also a work company of `q`. */
  predicate CompaniesApart(p: Profile, q: Profile) {
    forall i, j :: 0 <= i < |p.work| && 0 <= j < |q.work| && p.work[i].company.Some? ==>
      p.work[i].company != q.work[j].company
  }

  /** Two profiles the unique indexes allow side by side. */
  predicate Compatible(p: Profile, q: Profile) {
    p.email != q.email && TitlesApart(p, q) && CompaniesApart(p, q)
  }

  /** `p` may join the documents `docs` except the one at `skip` (use -1 to skip none). */
  predicate FitsBeside(p: Profile, docs: seq<Document>, skip: int) {
    forall j :: 0 <= j < |docs| && j != skip ==> Compatible(p, docs[j].profile)
  }

  predicate UniqueKeys(docs: seq<Document>) {
    forall i, j :: 0 <= i < |docs| && 0 <= j < |docs| && i != j ==> Compatible(docs[i].profile, docs[j].profile)
  }

  /**
   * `timestamps: true` with a counter for the clock: every stamp is before
   * `clock`, and documents were created in the order they are stored.
   */
  predicate Stamped(docs: seq<Document>, clock: nat) {
    (forall i :: 0 <= i < |docs| ==> docs[i].id < clock && docs[i].createdAt <= docs[i].updatedAt < clock) &&
    (forall i, j :: 0 <= i < j < |docs| ==> docs[i].createdAt < docs[j].createdAt && docs[i].id < docs[j].id)
  }

  /** What the collection keeps true of its documents at all times. */
  predicate Consistent(docs: seq<Document>, clock: nat) {
    UniqueKeys(docs) && Stamped(docs, clock) &&
    forall i :: 0 <= i < |docs| ==> ProfileTrimmed(docs[i].profile)
  }

  /** Storing one more document keeps the collection consistent when the indexes admit it. */
  lemma {:induction false} AppendKeepsConsistent(docs: seq<Document>, clock: nat, p: Profile)
    requires Consistent(docs, clock)
    requires ProfileTrimmed(p) && FitsBeside(p, docs, -1)
    ensures Consistent(docs + [Document(clock, clock, clock, p)], clock + 1)
  {
    var docs' := docs + [Document(clock, clock, clock, p)];
    assert Stamped(docs', clock + 1);
    assert forall i :: 0 <= i < |docs'| ==> ProfileTrimmed(docs'[i].profile);
    forall i, j | 0 <= i < |docs'| && 0 <= j < |docs'| && i != j
      ensures Compatible(docs'[i].profile, docs'[j].profile)
    {
      if i == |docs| {
        assert Compatible(p, docs[j].profile);
      } else if j == |docs| {
        assert Compatible(p, docs[i].profile);
      }
    }
  }

  /** Rewriting one document in place keeps the collection consistent when the indexes admit it. */
  lemma {:induction false} ReplaceKeepsConsistent(docs: seq<Document>, clock: nat, k: nat, p: Profile)
    requires Consistent(docs, clock) && k < |docs|
    requires ProfileTrimmed(p) && FitsBeside(p, docs, k)
    ensures Consistent(docs[k := Document(docs[k].id, docs[k].createdAt, clock, p)], clock + 1)
  {
    var docs' := docs[k := Document(docs[k].id, docs[k].createdAt, clock, p)];
    assert Stamped(docs', clock + 1);
    assert forall i :: 0 <= i < |docs'| ==> ProfileTrimmed(docs'[i].profile);
    forall i, j | 0 <= i < |docs'| && 0 <= j < |docs'| && i != j
      ensures Compatible(docs'[i].profile, docs'[j].profile)
    {
      if i == k {
        assert Compatible(p, docs[j].profile);
      } else if j == k {
        assert Compatible(p, docs[i].profile);
      }
    }
  }
}
