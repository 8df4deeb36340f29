/**
 * GET /search?q=: the scanned profiles in which the lower-cased query occurs
 * in the lower-cased name or email, in one skill, or in one project's title
 * or description. The answer holds whole documents, id and timestamps
 * included, in scan order.
 */
module Search {
  import opened Wrappers
  import opened Text
  import opened Schema

  /** The project test: a title or a description that is present, not empty, and contains the query. */
  predicate ProjectMatches(p: Project, query: string) {
    (p.title.Some? && p.title.value != "" && Contains(Lower(p.title.value), query)) ||
    (p.description.Some? && p.description.value != "" && Contains(Lower(p.description.value), query))
  }

  /** The filter callback, for an already lower-cased query: the four tests OR-ed. */
  predicate Matches(p: Profile, query: string) {
    Contains(Lower(p.name), query) ||
    Contains(Lower(p.email), query) ||
    (exists i :: 0 <= i < |p.skills| && Contains(Lower(p.skills[i]), query)) ||
    (exists i :: 0 <= i < |p.projects| && ProjectMatches(p.projects[i], query))
  }

  /** `profiles.filter(...)`: the matching documents, each kept in its place. */
  function Matching(docs: seq<Document>, query: string): (r: seq<Document>)
    ensures |r| <= |docs|
    ensures forall d :: d in r <==> d in docs && Matches(d.profile, query)
  {
    if docs == [] then []
    else
      var last := docs[|docs| - 1];
      Matching(docs[..|docs| - 1], query) + if Matches(last.profile, query) then [last] else []
  }

  /**
   * The handler: a missing `q` makes the call to `toLowerCase` throw,
   * which the handler answers with 500; otherwise the matching documents.
   */
  function SearchProfiles(docs: seq<Document>, q: Option<string>): (r: Result<seq<Document>>)
    ensures r.Err? <==> q.None?
    ensures r.Err? ==> r.failure == Internal
    ensures r.Ok? ==> forall d :: d in r.value <==> d in docs && Matches(d.profile, Lower(q.value))
  {
    if q.None? then Err(Internal) else Ok(Matching(docs, Lower(q.value)))
  }

  /** One more document: it is kept at the end exactly when it matches. */
  lemma MatchingSnoc(docs: seq<Document>, d: Document, query: string)
    ensures Matching(docs + [d], query) == Matching(docs, query) + if Matches(d.profile, query) then [d] else []
  {
    assert (docs + [d])[..|docs|] == docs;
  }

  /** Searching a concatenation searches each part: the answer keeps scan order. */
  lemma {:induction false} MatchingAppend(d1: seq<Document>, d2: seq<Document>, query: string)
    ensures Matching(d1 + d2, query) == Matching(d1, query) + Matching(d2, query)
    decreases |d2|
  {
    if d2 == [] {
      assert d1 + d2 == d1;
    } else {
      var n := |d2|;
      var init, last := d2[..n - 1], d2[n - 1];
      var kept := if Matches(last.profile, query) then [last] else [];
      assert d1 + d2 == (d1 + init) + [last];
      assert d2 == init + [last];
      calc {
        Matching(d1 + d2, query);
        { MatchingSnoc(d1 + init, last, query); }
        Matching(d1 + init, query) + kept;
        { MatchingAppend(d1, init, query); }
        (Matching(d1, query) + Matching(init, query)) + kept;
        Matching(d1, query) + (Matching(init, query) + kept);
        { MatchingSnoc(init, last, query); }
        Matching(d1, query) + Matching(d2, query);
      }
    }
  }

  /** The empty query occurs in every name, so it returns every scanned document, in order. */
  lemma {:induction false} EmptyQueryReturnsAll(docs: seq<Document>)
    ensures SearchProfiles(docs, Some("")) == Ok(docs)
  {
    if docs != [] {
      var n := |docs|;
      EmptyQueryReturnsAll(docs[..n - 1]);
      assert Matches(docs[n - 1].profile, "");
      assert docs == docs[..n - 1] + [docs[n - 1]];
    }
  }

  /** Queries that lower-case alike give the same answer: the search ignores the query's case. */
  lemma QueryCaseIgnored(docs: seq<Document>, q1: string, q2: string)
    requires Lower(q1) == Lower(q2)
    ensures SearchProfiles(docs, Some(q1)) == SearchProfiles(docs, Some(q2))
  {
  }

  /**
   * A stored project description that contains the query, in whatever case
   * the two share, puts its profile in the answer.
   */
  lemma DescriptionHitIsFound(docs: seq<Document>, q: string, k: nat, j: nat)
    requires k < |docs| && j < |docs[k].profile.projects|
    requires var p := docs[k].profile.projects[j];
      p.description.Some? && p.description.value != "" && Contains(p.description.value, q)
    ensures SearchProfiles(docs, Some(q)).Ok?
    ensures docs[k] in SearchProfiles(docs, Some(q)).value
  {
    var p := docs[k].profile.projects[j];
    ContainsLower(p.description.value, q);
    assert ProjectMatches(p, Lower(q));
    assert Matches(docs[k].profile, Lower(q));
  }

  /** A name that contains the query, in whatever case the two share, puts its profile in the answer. */
  lemma NameHitIsFound(docs: seq<Document>, q: string, k: nat)
    requires k < |docs| && Contains(docs[k].profile.name, q)
    ensures SearchProfiles(docs, Some(q)).Ok?
    ensures docs[k] in SearchProfiles(docs, Some(q)).value
  {
    ContainsLower(docs[k].profile.name, q);
  }

  /** A filter of a list without repeats has no repeats: no profile is answered twice. */
  lemma {:induction false} MatchingDistinct(docs: seq<Document>, query: string)
    requires Distinct(docs)
    ensures Distinct(Matching(docs, query))
  {
    if docs != [] {
      var n := |docs|;
      var init := docs[..n - 1];
      assert Distinct(init);
      MatchingDistinct(init, query);
      assert docs[n - 1] !in init;
      MatchingSnoc(init, docs[n - 1], query);
      assert docs == init + [docs[n - 1]];
    }
  }

  /** The stored documents hold distinct emails, so they are distinct documents. */
  lemma StoredDistinct(docs: seq<Document>, clock: nat)
    requires Consistent(docs, clock)
    ensures Distinct(docs)
  {
    forall i, j | 0 <= i < j < |docs| ensures docs[i] != docs[j] {
      assert Compatible(docs[i].profile, docs[j].profile);
    }
  }
}
