/**
 * GET /projects?skill=: every profile's projects in one list, profiles in
 * scan order and each profile's projects in their own order, optionally
 * cut down to the projects tagged with one skill.
 */
module ProjectIndex {
  import opened Wrappers
  import opened Schema

  /** Every profile's projects, profile after profile. */
  function AllProjects(docs: seq<Document>): seq<Project> {
    if docs == [] then []
    else AllProjects(docs[..|docs| - 1]) + docs[|docs| - 1].profile.projects
  }

  /**
   * The route's test on one project: an absent or
   * empty filter keeps every project, otherwise the project's skills must
   * hold the filter string exactly (case and white space included).
   */
  predicate Keep(p: Project, skill: Option<string>) {
    skill.None? || skill.value == "" || skill.value in p.skills
  }

  /** The projects of `ps` the filter keeps, in their order. */
  function Filter(ps: seq<Project>, skill: Option<string>): (r: seq<Project>)
    ensures |r| <= |ps|
    ensures forall x :: x in r <==> x in ps && Keep(x, skill)
  {
    if ps == [] then []
    else Filter(ps[..|ps| - 1], skill) + (if Keep(ps[|ps| - 1], skill) then [ps[|ps| - 1]] else [])
  }

  /** What GET /projects answers for the scanned documents `docs`. */
  function ProjectsFor(docs: seq<Document>, skill: Option<string>): seq<Project> {
    Filter(AllProjects(docs), skill)
  }

  /** The handler's two nested `forEach` loops, pushing each kept project. */
  method ListProjects(docs: seq<Document>, skill: Option<string>) returns (projects: seq<Project>)
    ensures projects == ProjectsFor(docs, skill)
  {
    projects := [];
    ghost var scanned: seq<Project> := [];
    for i := 0 to |docs|
      invariant scanned == AllProjects(docs[..i])
      invariant projects == Filter(scanned, skill)
    {
      var ps := docs[i].profile.projects;
      assert scanned + ps[..0] == scanned;
      for j := 0 to |ps|
        invariant projects == Filter(scanned + ps[..j], skill)
      {
        assert scanned + ps[..j + 1] == (scanned + ps[..j]) + [ps[j]];
        FilterSnoc(scanned + ps[..j], ps[j], skill);
        if Keep(ps[j], skill) {
          projects := projects + [ps[j]];
        }
      }
      assert ps[..|ps|] == ps;
      AllProjectsSnoc(docs, i);
      scanned := scanned + ps;
    }
    assert docs[..|docs|] == docs;
  }

  /** One more project: it is kept at the end exactly when the filter keeps it. */
  lemma FilterSnoc(ps: seq<Project>, x: Project, skill: Option<string>)
    ensures Filter(ps + [x], skill) == Filter(ps, skill) + (if Keep(x, skill) then [x] else [])
  {
    assert (ps + [x])[..|ps|] == ps;
  }

  /** One more profile: its projects follow those of the profiles before it. */
  lemma AllProjectsSnoc(docs: seq<Document>, i: nat)
    requires i < |docs|
    ensures AllProjects(docs[..i + 1]) == AllProjects(docs[..i]) + docs[i].profile.projects
  {
    assert docs[..i + 1][..i] == docs[..i];
  }

  /** Filtering a concatenation filters each part: the kept projects stay in their order. */
  lemma {:induction false} FilterAppend(a: seq<Project>, b: seq<Project>, skill: Option<string>)
    ensures Filter(a + b, skill) == Filter(a, skill) + Filter(b, skill)
    decreases |b|
  {
    if b == [] {
      assert a + b == a;
    } else {
      var n := |b|;
      var init, last := b[..n - 1], b[n - 1];
      var kept := if Keep(last, skill) then [last] else [];
      assert a + b == (a + init) + [last];
      assert b == init + [last];
      calc {
        Filter(a + b, skill);
        { FilterSnoc(a + init, last, skill); }
        Filter(a + init, skill) + kept;
        { FilterAppend(a, init, skill); }
        (Filter(a, skill) + Filter(init, skill)) + kept;
        Filter(a, skill) + (Filter(init, skill) + kept);
        { FilterSnoc(init, last, skill); }
        Filter(a, skill) + Filter(b, skill);
      }
    }
  }

  /** The flattened list of a concatenation of collections is the concatenation of their lists. */
  lemma {:induction false} AllProjectsAppend(d1: seq<Document>, d2: seq<Document>)
    ensures AllProjects(d1 + d2) == AllProjects(d1) + AllProjects(d2)
    decreases |d2|
  {
    if d2 == [] {
      assert d1 + d2 == d1;
    } else {
      var n := |d2|;
      var init, last := d2[..n - 1], d2[n - 1].profile.projects;
      assert (d1 + d2)[..|d1 + d2| - 1] == d1 + init;
      calc {
        AllProjects(d1 + d2);
        AllProjects(d1 + init) + last;
        { AllProjectsAppend(d1, init); }
        (AllProjects(d1) + AllProjects(init)) + last;
        AllProjects(d1) + (AllProjects(init) + last);
        AllProjects(d1) + AllProjects(d2);
      }
    }
  }

  /** The index of a collection is the index of its first part followed by that of the rest: scan order is kept. */
  lemma ProjectsForAppend(d1: seq<Document>, d2: seq<Document>, skill: Option<string>)
    ensures ProjectsFor(d1 + d2, skill) == ProjectsFor(d1, skill) + ProjectsFor(d2, skill)
  {
    AllProjectsAppend(d1, d2);
    FilterAppend(AllProjects(d1), AllProjects(d2), skill);
  }

  /** A project is in the flattened list exactly when some scanned profile holds it. */
  lemma {:induction false} InAllProjects(docs: seq<Document>, x: Project)
    ensures x in AllProjects(docs) <==> exists i :: 0 <= i < |docs| && x in docs[i].profile.projects
  {
    if docs != [] {
      var n := |docs|;
      InAllProjects(docs[..n - 1], x);
      if x in docs[n - 1].profile.projects {
        assert 0 <= n - 1 < |docs| && x in docs[n - 1].profile.projects;
      }
      if exists i :: 0 <= i < |docs| && x in docs[i].profile.projects {
        var i :| 0 <= i < |docs| && x in docs[i].profile.projects;
        if i < n - 1 {
          assert docs[..n - 1][i] == docs[i];
        }
      }
    }
  }

  /** Without a filter (absent or empty) the answer is the whole flattened list. */
  lemma {:induction false} UnfilteredIsEverything(ps: seq<Project>, skill: Option<string>)
    requires skill.None? || skill.value == ""
    ensures Filter(ps, skill) == ps
  {
    if ps != [] {
      UnfilteredIsEverything(ps[..|ps| - 1], skill);
      assert ps == ps[..|ps| - 1] + [ps[|ps| - 1]];
    }
  }

  /**
   * With a filter, a project is in the answer exactly when a scanned profile
   * holds it and its skills contain the filter string.
   */
  lemma FilteredMembership(docs: seq<Document>, skill: string, x: Project)
    requires skill != ""
    ensures x in ProjectsFor(docs, Some(skill)) <==>
      (exists i :: 0 <= i < |docs| && x in docs[i].profile.projects) && skill in x.skills
  {
    InAllProjects(docs, x);
  }
}
