/**
 * The `/profile` routes: POST creates a profile, PUT updates one, GET lists
 * them newest first. The collection is a class whose documents are kept in
 * insertion order; a counter stands in for the clock behind the timestamps.
 */
module ProfileRoutes {
  import opened Wrappers
  import opened Text
  import opened Schema

  /** `findOne({email})`: the position of the first document holding `email`, if any. */
  function FindByEmail(docs: seq<Document>, email: string): (r: Option<nat>)
    ensures r.Some? ==> r.value < |docs| && docs[r.value].profile.email == email
    ensures r.Some? ==> forall j :: 0 <= j < r.value ==> docs[j].profile.email != email
    ensures r.None? <==> forall j :: 0 <= j < |docs| ==> docs[j].profile.email != email
  {
    if docs == [] then None
    else if docs[0].profile.email == email then Some(0)
    else match FindByEmail(docs[1..], email)
      case None => None
      case Some(k) => Some(k + 1)
  }

  /**
   * `findOne({email})` finds a document. The filter value goes through the
   * path's `trim` setter. An absent email is dropped from the filter, and the
   * empty filter finds any document at all.
   */
  predicate Taken(docs: seq<Document>, email: Option<string>) {
    match email
    case None => docs != []
    case Some(e) => exists j :: 0 <= j < |docs| && docs[j].profile.email == Trim(e)
  }

  /** `findOne({email})` as create calls it: some matching document, if there is one. */
  function FindOne(docs: seq<Document>, email: Option<string>): (r: Option<nat>)
    ensures r.Some? <==> Taken(docs, email)
    ensures r.Some? ==> r.value < |docs|
  {
    match email
    case None => if docs == [] then None else Some(0)
    case Some(e) => FindByEmail(docs, Trim(e))
  }

  /** What `create` accepts after the existence check: the schema's validators and unique indexes. */
  predicate Admissible(cast: Body, docs: seq<Document>) {
    Required(cast) && FitsBeside(NewProfile(cast), docs, -1)
  }

  /** The email PUT looks the profile up by: the body's email turned into a string and trimmed. */
  function UpdateKey(b: Body): (r: string)
    ensures Trimmed(r)
    ensures b.email.None? ==> r == "undefined"
    ensures b.email.Some? ==> r == Trim(b.email.value)
  {
    match b.email
    case None => "undefined"
    case Some(e) => Trim(e)
  }

  /** The email of the matched profile is the update key, so `$set` never changes it. */
  lemma UpdateKeepsEmail(p: Profile, b: Body)
    requires p.email == UpdateKey(b)
    ensures ApplySet(p, CastBody(b)).email == p.email
  {
  }

  /** What a write route answers, and the collection it leaves behind. */
  datatype Outcome<T> = Outcome(response: Result<T>, docs: seq<Document>, clock: nat)

  /**
   * POST /profile on the collection `docs`: 409 when a document already holds
   * the body's email; otherwise the document built from the seven fields is
   * appended, unless the validators or the unique indexes reject it (500).
   */
  function CreateStep(docs: seq<Document>, clock: nat, body: Body): Outcome<Document> {
    if Taken(docs, body.email) then Outcome(Err(Conflict), docs, clock)
    else if !Admissible(CastBody(body), docs) then Outcome(Err(Internal), docs, clock)
    else
      var doc := Document(clock, clock, clock, NewProfile(CastBody(body)));
      Outcome(Ok(doc), docs + [doc], clock + 1)
  }

  /**
   * PUT /profile on the collection `docs`: the first document holding the key
   * gets the body's paths and a fresh `updatedAt`, unless a unique index
   * rejects the result (500); with no such document nothing changes and the
   * answer is still a success.
   */
  function UpdateStep(docs: seq<Document>, clock: nat, body: Body): Outcome<()> {
    match FindByEmail(docs, UpdateKey(body))
    case None => Outcome(Ok(()), docs, clock)
    case Some(k) =>
      var p := ApplySet(docs[k].profile, CastBody(body));
      if FitsBeside(p, docs, k) then
        Outcome(Ok(()), docs[k := Document(docs[k].id, docs[k].createdAt, clock, p)], clock + 1)
      else Outcome(Err(Internal), docs, clock)
  }

  /**
   * A create that fails leaves the collection as it was; one that succeeds
   * appends exactly one document, stamped with the current clock, whose
   * profile holds the body's seven fields trimmed, and changes no stored one.
   */
  lemma CreateEffect(docs: seq<Document>, clock: nat, body: Body)
    ensures var o := CreateStep(docs, clock, body);
      o.response.Err? ==> o.docs == docs && o.clock == clock
    ensures var o := CreateStep(docs, clock, body);
      o.response.Ok? ==>
        |o.docs| == |docs| + 1 && o.docs[..|docs|] == docs && o.docs[|docs|] == o.response.value &&
        o.clock == clock + 1 && o.response.value.id == o.response.value.createdAt == o.response.value.updatedAt == clock
    ensures var o := CreateStep(docs, clock, body);
      o.response.Ok? ==>
        var p := o.response.value.profile;
        Some(p.name) == TrimOpt(body.name) && Some(p.email) == TrimOpt(body.email) &&
        p.education == TrimOpt(body.education) && p.skills == TrimEach(body.skills.GetOr([])) &&
        p.projects == CastProjects(body.projects.GetOr([])) && p.work == CastWorks(body.work.GetOr([])) &&
        (p.links.Some? <==> body.links.Some?) && (body.links.Some? ==> p.links.value == CastLinks(body.links.value))
  {
    var o := CreateStep(docs, clock, body);
    if o.response.Ok? {
      assert o.docs == docs + [o.response.value];
      assert (docs + [o.response.value])[..|docs|] == docs;
    }
  }

  /**
   * The answers of a create: 409 exactly when a stored profile holds the
   * trimmed email, or the email is absent and the store is not empty.
   * Otherwise 201 exactly when the name, the email, every project title and
   * every work role and company hold a non-space character and the unique
   * indexes admit the new profile; 500 in every other case.
   */
  lemma CreateResponses(docs: seq<Document>, clock: nat, body: Body)
    ensures CreateStep(docs, clock, body).response == Err(Conflict) <==>
      (body.email.None? && docs != []) ||
      exists j :: 0 <= j < |docs| && Some(docs[j].profile.email) == TrimOpt(body.email)
    ensures CreateStep(docs, clock, body).response.Ok? <==>
      !Taken(docs, body.email) && Filled(body.name) && Filled(body.email) &&
      (body.projects.Some? ==> forall i :: 0 <= i < |body.projects.value| ==> Filled(body.projects.value[i].title)) &&
      (body.work.Some? ==> forall i :: 0 <= i < |body.work.value| ==>
        Filled(body.work.value[i].role) && Filled(body.work.value[i].company)) &&
      FitsBeside(NewProfile(CastBody(body)), docs, -1)
    ensures !Filled(body.name) || !Filled(body.email) ==> CreateStep(docs, clock, body).response.Err?
  {
    RequiredIffFilled(body);
  }

  /**
   * An update changes at most the first document holding the update key: it
   * gets the body's present paths and a fresh `updatedAt`, keeps its id and
   * `createdAt`, and every other document stays as it was. With no such
   * document the answer is a success and nothing changes.
   */
  lemma UpdateEffect(docs: seq<Document>, clock: nat, body: Body)
    ensures |UpdateStep(docs, clock, body).docs| == |docs|
    ensures (forall j :: 0 <= j < |docs| ==> docs[j].profile.email != UpdateKey(body)) ==>
      UpdateStep(docs, clock, body) == Outcome(Ok(()), docs, clock)
    ensures var o := UpdateStep(docs, clock, body);
      o.response.Err? ==> o.docs == docs && o.clock == clock
    ensures var o := UpdateStep(docs, clock, body);
      forall j :: 0 <= j < |docs| && o.docs[j] != docs[j] ==>
        docs[j].profile.email == UpdateKey(body) &&
        (forall i :: 0 <= i < |docs| && i != j ==> o.docs[i] == docs[i]) &&
        o.docs[j] == Document(docs[j].id, docs[j].createdAt, clock, ApplySet(docs[j].profile, CastBody(body)))
  {
    var found := FindByEmail(docs, UpdateKey(body));
    var o := UpdateStep(docs, clock, body);
    if found.Some? {
      var k := found.value;
      var p := ApplySet(docs[k].profile, CastBody(body));
      if FitsBeside(p, docs, k) {
        assert o.docs == docs[k := Document(docs[k].id, docs[k].createdAt, clock, p)];
        assert forall j :: 0 <= j < |docs| && j != k ==> o.docs[j] == docs[j];
      } else {
        assert o.docs == docs;
      }
    }
  }

  /**
   * When an update answers 500: exactly when a document holds the key and the
   * unique indexes refuse the first such document's updated profile.
   */
  lemma UpdateFails(docs: seq<Document>, clock: nat, body: Body)
    ensures UpdateStep(docs, clock, body).response.Err? <==>
      exists k :: 0 <= k < |docs| && FirstHolder(docs, k, UpdateKey(body)) &&
        !FitsBeside(ApplySet(docs[k].profile, CastBody(body)), docs, k)
  {
    var key := UpdateKey(body);
    var found := FindByEmail(docs, key);
    if found.Some? {
      assert FirstHolder(docs, found.value, key);
    }
    forall k | 0 <= k < |docs| && FirstHolder(docs, k, key) ensures found == Some(k) {
      FirstHolderFound(docs, key, k);
    }
  }

  /**
   * A write that the unique indexes admit: the first document holding the key
   * is rewritten with the body's paths and a fresh `updatedAt`, the clock
   * advances, and the answer is success.
   */
  lemma UpdateWrites(docs: seq<Document>, clock: nat, body: Body, k: nat)
    requires k < |docs| && FirstHolder(docs, k, UpdateKey(body))
    requires FitsBeside(ApplySet(docs[k].profile, CastBody(body)), docs, k)
    ensures UpdateStep(docs, clock, body) ==
      Outcome(Ok(()), docs[k := Document(docs[k].id, docs[k].createdAt, clock, ApplySet(docs[k].profile, CastBody(body)))], clock + 1)
  {
    FirstHolderFound(docs, UpdateKey(body), k);
  }

  /** `findOne` finds the first document holding the email. */
  lemma FirstHolderFound(docs: seq<Document>, email: string, k: nat)
    requires k < |docs| && FirstHolder(docs, k, email)
    ensures FindByEmail(docs, email) == Some(k)
  {
  }

  /** `k` is the first position whose document holds `email`. */
  predicate FirstHolder(docs: seq<Document>, k: nat, email: string)
    requires k < |docs|
  {
    docs[k].profile.email == email && forall j :: 0 <= j < k ==> docs[j].profile.email != email
  }

  /** A create keeps the collection consistent: unique keys, trimmed strings, ordered stamps. */
  lemma CreateStepConsistent(docs: seq<Document>, clock: nat, body: Body)
    requires Consistent(docs, clock)
    ensures Consistent(CreateStep(docs, clock, body).docs, CreateStep(docs, clock, body).clock)
  {
    if !Taken(docs, body.email) && Admissible(CastBody(body), docs) {
      NewProfileTrimmed(body);
      AppendKeepsConsistent(docs, clock, NewProfile(CastBody(body)));
    }
  }

  /** An update keeps the collection consistent. */
  lemma UpdateStepConsistent(docs: seq<Document>, clock: nat, body: Body)
    requires Consistent(docs, clock)
    ensures Consistent(UpdateStep(docs, clock, body).docs, UpdateStep(docs, clock, body).clock)
  {
    var found := FindByEmail(docs, UpdateKey(body));
    if found.Some? {
      var k := found.value;
      var p := ApplySet(docs[k].profile, CastBody(body));
      if FitsBeside(p, docs, k) {
        CastBodyTrimmed(body);
        SetKeepsConsistent(docs, clock, k, CastBody(body));
      }
    }
  }

  /** Writing a trimmed body into one document keeps the collection consistent when the indexes admit it. */
  lemma SetKeepsConsistent(docs: seq<Document>, clock: nat, k: nat, b: Body)
    requires Consistent(docs, clock) && k < |docs| && BodyTrimmed(b)
    requires FitsBeside(ApplySet(docs[k].profile, b), docs, k)
    ensures Consistent(docs[k := Document(docs[k].id, docs[k].createdAt, clock, ApplySet(docs[k].profile, b))], clock + 1)
  {
    ApplySetKeepsTrimmed(docs[k].profile, b);
    ReplaceKeepsConsistent(docs, clock, k, ApplySet(docs[k].profile, b));
  }

  /** The profile collection. */
  class ProfileStore {
    /** The documents, in insertion order: what `find()` scans without a sort. */
    var docs: seq<Document>
    /** The next value of the clock behind `_id`, `createdAt` and `updatedAt`. */
    var clock: nat

    ghost predicate Valid()
      reads this
    {
      Consistent(docs, clock)
    }

    constructor ()
      ensures Valid() && docs == [] && clock == 0
    {
      docs := [];
      clock := 0;
    }

    /** POST /profile: check that the email is new, then build and insert the document. */
    method Create(body: Body) returns (r: Result<Document>)
      requires Valid()
      modifies this
      ensures Valid()
      ensures Outcome(r, docs, clock) == CreateStep(old(docs), old(clock), body)
    {
      ghost var step := CreateStep(docs, clock, body);
      CreateStepConsistent(docs, clock, body);
      var existing := FindOne(docs, body.email);
      if existing.Some? {
        assert step == Outcome(Err(Conflict), docs, clock);
        return Err(Conflict);
      }
      var cast := CastBody(body);
      if !Required(cast) {
        assert step == Outcome(Err(Internal), docs, clock);
        return Err(Internal);
      }
      var p := NewProfile(cast);
      if !FitsBeside(p, docs, -1) {
        assert step == Outcome(Err(Internal), docs, clock);
        return Err(Internal);
      }
      var doc := Document(clock, clock, clock, p);
      docs := docs + [doc];
      clock := clock + 1;
      r := Ok(doc);
      assert step == Outcome(r, docs, clock);
    }

    /** PUT /profile: an update of the first document holding the key, answered with success whether or not a document matched. */
    method Update(body: Body) returns (r: Result<()>)
      requires Valid()
      modifies this
      ensures Valid()
      ensures Outcome(r, docs, clock) == UpdateStep(old(docs), old(clock), body)
    {
      ghost var step := UpdateStep(docs, clock, body);
      UpdateStepConsistent(docs, clock, body);
      var found := FindByEmail(docs, UpdateKey(body));
      if found.None? {
        assert step == Outcome(Ok(()), docs, clock);
        return Ok(());
      }
      var k := found.value;
      var p := ApplySet(docs[k].profile, CastBody(body));
      if !FitsBeside(p, docs, k) {
        assert step == Outcome(Err(Internal), docs, clock);
        return Err(Internal);
      }
      docs := docs[k := Document(docs[k].id, docs[k].createdAt, clock, p)];
      clock := clock + 1;
      r := Ok(());
      assert step == Outcome(r, docs, clock);
    }
  }

  // ---------------------------------------------------------------------------
  // GET /profile: every document sorted by descending `createdAt`, then each projected
  // to its seven fields.

  /** Strictly newest first by `createdAt`. */
  predicate CreatedDesc(s: seq<Document>) {
    forall i, j :: 0 <= i < j < |s| ==> s[i].createdAt > s[j].createdAt
  }

  /** The documents from the most recently stored to the first. */
  function NewestFirst(docs: seq<Document>): (r: seq<Document>)
    ensures |r| == |docs|
    ensures forall i :: 0 <= i < |r| ==> r[i] == docs[|docs| - 1 - i]
  {
    if docs == [] then [] else [docs[|docs| - 1]] + NewestFirst(docs[..|docs| - 1])
  }

  /** Stored order is creation order, so the newest-first order is sorted by descending `createdAt`. */
  lemma NewestFirstIsSorted(docs: seq<Document>, clock: nat)
    requires Stamped(docs, clock)
    ensures CreatedDesc(NewestFirst(docs))
  {
    var r := NewestFirst(docs);
    forall i, j | 0 <= i < j < |r| ensures r[i].createdAt > r[j].createdAt {
      assert r[i] == docs[|docs| - 1 - i] && r[j] == docs[|docs| - 1 - j];
    }
  }

  /** The newest-first order holds every stored document exactly as often as the collection does. */
  lemma {:induction false} NewestFirstPermutes(docs: seq<Document>)
    ensures multiset(NewestFirst(docs)) == multiset(docs)
  {
    if docs != [] {
      var n := |docs|;
      var init, last := docs[..n - 1], docs[n - 1];
      NewestFirstPermutes(init);
      assert NewestFirst(docs) == [last] + NewestFirst(init);
      assert docs == init + [last];
      assert multiset(docs) == multiset(init) + multiset{last};
    }
  }

  /** Two `createdAt`-descending orders of the same documents are the same order. */
  lemma {:induction false} CreatedDescUnique(a: seq<Document>, b: seq<Document>)
    requires CreatedDesc(a) && CreatedDesc(b) && multiset(a) == multiset(b)
    ensures a == b
    decreases |a|
  {
    assert |b| == |a| by { assert |multiset(a)| == |multiset(b)|; }
    if a != [] {
      SameNewest(a, b);
      assert a == [a[0]] + a[1..] && b == [b[0]] + b[1..];
      assert multiset(a[1..]) == multiset(b[1..]) by {
        assert multiset(a) == multiset{a[0]} + multiset(a[1..]);
        assert multiset(b) == multiset{a[0]} + multiset(b[1..]);
        assert multiset(a[1..]) == multiset(a) - multiset{a[0]};
      }
      CreatedDescUnique(a[1..], b[1..]);
    }
  }

  /** Both orders start with the same, newest, document. */
  lemma SameNewest(a: seq<Document>, b: seq<Document>)
    requires CreatedDesc(a) && CreatedDesc(b) && multiset(a) == multiset(b)
    requires a != [] && |b| == |a|
    ensures a[0] == b[0]
  {
    assert a[0] in multiset(b);
    var k :| 0 <= k < |b| && b[k] == a[0];
    assert b[0] in multiset(a);
    var m :| 0 <= m < |a| && a[m] == b[0];
    assert a[0].createdAt >= a[m].createdAt;
  }

  /** The `.map` of the GET handler: every document cut down to its seven fields. */
  function Views(docs: seq<Document>): (r: seq<Profile>)
    ensures |r| == |docs| && forall i :: 0 <= i < |r| ==> r[i] == docs[i].profile
  {
    seq(|docs|, i requires 0 <= i < |docs| => docs[i].profile)
  }

  /** GET /profile: every stored profile, newest first, without id or timestamps. */
  function ListProfiles(docs: seq<Document>): (r: seq<Profile>)
    ensures |r| == |docs|
    ensures forall i :: 0 <= i < |r| ==> r[i] == docs[|docs| - 1 - i].profile
  {
    Views(NewestFirst(docs))
  }

  /**
   * The list is the projection of THE `createdAt`-descending sort of the
   * stored documents: of any order the database could produce for it.
   */
  lemma ListIsSortedProjection(docs: seq<Document>, clock: nat, sorted: seq<Document>)
    requires Stamped(docs, clock)
    requires CreatedDesc(sorted) && multiset(sorted) == multiset(docs)
    ensures ListProfiles(docs) == Views(sorted)
  {
    NewestFirstIsSorted(docs, clock);
    NewestFirstPermutes(docs);
    CreatedDescUnique(NewestFirst(docs), sorted);
  }

  /**
   * Any store: once a POST has stored a profile, the same POST again is
   * refused with 409 and changes nothing, and the new document is the only
   * one holding its email.
   */
  lemma CreateTwice(docs: seq<Document>, clock: nat, body: Body)
    requires CreateStep(docs, clock, body).response.Ok?
    ensures var o := CreateStep(docs, clock, body);
      CreateStep(o.docs, o.clock, body) == Outcome(Err(Conflict), o.docs, o.clock)
    ensures var o := CreateStep(docs, clock, body);
      forall j :: 0 <= j < |o.docs| && o.docs[j].profile.email == Trim(body.email.value) ==> j == |docs|
  {
    var o := CreateStep(docs, clock, body);
    CastBodyValues(body);
    assert o.docs[|docs|].profile.email == Trim(body.email.value);
  }
}
