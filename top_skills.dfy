/**
 * GET /skills/top: every skill of every scanned profile counted into an
 * object (repeats included, keys compared exactly), its entries sorted by
 * descending count, and the first five skill names returned.
 *
 * An object enumerates ordinary string keys in the order they were first
 * added, and `Array.prototype.sort` is stable, so skills with equal counts
 * come out in the order they were first seen.
 */
module TopSkills {
  import opened Schema

  /** Every profile's skills, profile after profile: the order the handler visits them in. */
  function AllSkills(docs: seq<Document>): seq<string> {
    if docs == [] then []
    else AllSkills(docs[..|docs| - 1]) + docs[|docs| - 1].profile.skills
  }

  /** How many times `x` occurs in `s`. */
  function Count(s: seq<string>, x: string): nat {
    multiset(s)[x]
  }

  /** The distinct skills of `s` in order of first occurrence: the key order of the counting object. */
  function FirstSeen(s: seq<string>): (r: seq<string>)
    ensures forall x :: x in r <==> x in s
    ensures Distinct(r)
    ensures forall i, j :: 0 <= i < j < |r| ==> SeenBefore(s, r[i], r[j])
  {
    if s == [] then []
    else
      var prefix, last := s[..|s| - 1], s[|s| - 1];
      var init := FirstSeen(prefix);
      FirstSeenSnocOrder(s, init);
      if last in prefix then init else init + [last]
  }

  /** `x` occurs in `s` before the first occurrence of `y`, if `y` occurs at all. */
  predicate SeenBefore(s: seq<string>, x: string, y: string) {
    exists k :: 0 <= k < |s| && s[k] == x && y !in s[..k + 1]
  }

  /** One more skill keeps the first-seen order of the earlier keys, and a new key comes after all of them. */
  lemma FirstSeenSnocOrder(s: seq<string>, init: seq<string>)
    requires s != []
    requires forall x :: x in init <==> x in s[..|s| - 1]
    requires forall i, j :: 0 <= i < j < |init| ==> SeenBefore(s[..|s| - 1], init[i], init[j])
    ensures s[|s| - 1] in s[..|s| - 1] ==> forall i, j :: 0 <= i < j < |init| ==> SeenBefore(s, init[i], init[j])
    ensures s[|s| - 1] !in s[..|s| - 1] ==>
      var r := init + [s[|s| - 1]];
      forall i, j :: 0 <= i < j < |r| ==> SeenBefore(s, r[i], r[j])
  {
    var prefix, last := s[..|s| - 1], s[|s| - 1];
    var r := if last in prefix then init else init + [last];
    forall i, j | 0 <= i < j < |r| ensures SeenBefore(s, r[i], r[j]) {
      var k: int;
      if j < |init| {
        assert SeenBefore(prefix, init[i], init[j]);
        k :| 0 <= k < |prefix| && prefix[k] == init[i] && init[j] !in prefix[..k + 1];
      } else {
        assert r[i] == init[i] && init[i] in init;
        k :| 0 <= k < |prefix| && prefix[k] == init[i];
      }
      assert s[..k + 1] == prefix[..k + 1];
      assert s[k] == r[i];
    }
  }

  /** One `[skill, count]` pair of `Object.entries`. */
  datatype Entry = Entry(skill: string, count: nat)

  /** The object's entries: each key with its number of occurrences in `s`. */
  function Entries(keys: seq<string>, s: seq<string>): (r: seq<Entry>)
    ensures |r| == |keys|
    ensures forall k :: 0 <= k < |r| ==> r[k] == Entry(keys[k], Count(s, keys[k]))
  {
    seq(|keys|, k requires 0 <= k < |keys| => Entry(keys[k], Count(s, keys[k])))
  }

  /** The skill names of the entries, in order. */
  function Names(es: seq<Entry>): (r: seq<string>)
    ensures |r| == |es|
    ensures forall k :: 0 <= k < |r| ==> r[k] == es[k].skill
  {
    seq(|es|, k requires 0 <= k < |es| => es[k].skill)
  }

  /** Counts never grow from left to right. */
  predicate NonIncreasing(es: seq<Entry>) {
    forall i, j :: 0 <= i < j < |es| ==> es[i].count >= es[j].count
  }

  /** No skill in two entries. */
  predicate DistinctSkills(es: seq<Entry>) {
    forall i, j :: 0 <= i < j < |es| ==> es[i].skill != es[j].skill
  }

  /**
   * Places `e` in a list sorted by descending count, after every entry whose
   * count is at least its own: what a stable sort does with a later entry.
   */
  function Insert(es: seq<Entry>, e: Entry): (r: seq<Entry>)
    ensures |r| == |es| + 1
    ensures forall x :: x in r <==> x in es || x == e
    ensures multiset(r) == multiset(es) + multiset{e}
  {
    if es == [] || es[|es| - 1].count >= e.count then es + [e]
    else
      var init, last := es[..|es| - 1], es[|es| - 1];
      assert es == init + [last];
      Insert(init, e) + [last]
  }

  /** Inserting into a sorted list leaves it sorted. */
  lemma {:induction false} InsertSorted(es: seq<Entry>, e: Entry)
    requires NonIncreasing(es)
    ensures NonIncreasing(Insert(es, e))
  {
    if es != [] && es[|es| - 1].count < e.count {
      var init, last := es[..|es| - 1], es[|es| - 1];
      InsertSorted(init, e);
      var r := Insert(init, e);
      forall x | x in r ensures x.count >= last.count {
        if x in init {
          var i :| 0 <= i < |init| && init[i] == x;
        }
      }
    }
  }

  /** Inserting an entry for a new skill keeps the skills distinct. */
  lemma {:induction false} InsertDistinct(es: seq<Entry>, e: Entry)
    requires DistinctSkills(es) && forall x :: x in es ==> x.skill != e.skill
    ensures DistinctSkills(Insert(es, e))
  {
    if es != [] && es[|es| - 1].count < e.count {
      var init, last := es[..|es| - 1], es[|es| - 1];
      InsertDistinct(init, e);
      var r := Insert(init, e);
      forall x | x in r ensures x.skill != last.skill {
        if x in init {
          var i :| 0 <= i < |init| && init[i] == x;
        }
      }
    }
  }

  /**
   * The comparator sort on counts: a stable sort by descending count,
   * written as insertion of each entry in turn.
   */
  function SortByCount(es: seq<Entry>): (r: seq<Entry>)
    ensures |r| == |es|
    ensures forall x :: x in r <==> x in es
    ensures multiset(r) == multiset(es)
  {
    if es == [] then []
    else
      var init, last := es[..|es| - 1], es[|es| - 1];
      assert es == init + [last];
      Insert(SortByCount(init), last)
  }

  /** The sort orders by descending count and, given distinct skills, keeps them distinct. */
  lemma {:induction false} SortSortedDistinct(es: seq<Entry>)
    ensures NonIncreasing(SortByCount(es))
    ensures DistinctSkills(es) ==> DistinctSkills(SortByCount(es))
  {
    if es != [] {
      var init, last := es[..|es| - 1], es[|es| - 1];
      SortSortedDistinct(init);
      InsertSorted(SortByCount(init), last);
      if DistinctSkills(es) {
        assert DistinctSkills(init);
        forall x | x in SortByCount(init) ensures x.skill != last.skill {
          var i :| 0 <= i < |init| && init[i] == x;
        }
        InsertDistinct(SortByCount(init), last);
      }
    }
  }

  /** The entries of the answer: the first five of the sorted entries. */
  function TopEntries(s: seq<string>): seq<Entry> {
    var sorted := SortByCount(Entries(FirstSeen(s), s));
    sorted[..if |sorted| < 5 then |sorted| else 5]
  }

  /** The answer for the visited skills `s`. */
  function TopOf(s: seq<string>): seq<string> {
    Names(TopEntries(s))
  }

  /** The object's keys in insertion order, and its values. */
  ghost predicate Counted(keys: seq<string>, counts: map<string, nat>, seen: seq<string>) {
    keys == FirstSeen(seen) && Tallied(counts, seen)
  }

  /** The object's values: one per visited skill, its number of occurrences. */
  ghost predicate Tallied(counts: map<string, nat>, seen: seq<string>) {
    (forall x :: x in counts <==> x in seen) &&
    (forall x :: x in counts ==> counts[x] == Count(seen, x))
  }

  /** The outer `forEach`: each profile's skills counted in turn. */
  method CountSkills(docs: seq<Document>) returns (keys: seq<string>, counts: map<string, nat>)
    ensures Counted(keys, counts, AllSkills(docs))
  {
    keys, counts := [], map[];
    for i := 0 to |docs|
      invariant Counted(keys, counts, AllSkills(docs[..i]))
    {
      AllSkillsSnoc(docs, i);
      keys, counts := CountInto(keys, counts, docs[i].profile.skills, AllSkills(docs[..i]));
    }
    assert docs[..|docs|] == docs;
  }

  /** The inner `forEach`: each skill of one profile raises its count by one, starting from zero. */
  method CountInto(keys0: seq<string>, counts0: map<string, nat>, skills: seq<string>, ghost seen: seq<string>)
    returns (keys: seq<string>, counts: map<string, nat>)
    requires Counted(keys0, counts0, seen)
    ensures Counted(keys, counts, seen + skills)
  {
    keys, counts := keys0, counts0;
    ghost var done := seen;
    assert seen + skills[..0] == seen;
    for j := 0 to |skills|
      invariant done == seen + skills[..j]
      invariant Counted(keys, counts, done)
    {
      var s := skills[j];
      CountedSnoc(keys, counts, done, s);
      var n := if s in counts then counts[s] else 0;
      if s !in counts {
        keys := keys + [s];
      }
      counts := counts[s := n + 1];
      assert skills[..j + 1] == skills[..j] + [s];
      done := done + [s];
    }
    assert skills[..|skills|] == skills;
  }

  /** One more profile: its skills are visited after those of the profiles before it. */
  lemma AllSkillsSnoc(docs: seq<Document>, i: nat)
    requires i < |docs|
    ensures AllSkills(docs[..i + 1]) == AllSkills(docs[..i]) + docs[i].profile.skills
  {
    assert docs[..i + 1][..i] == docs[..i];
  }

  /** The handler: count into an object, then sort its entries and keep five names. */
  method TopSkills(docs: seq<Document>) returns (top: seq<string>)
    ensures top == TopOf(AllSkills(docs))
  {
    var keys, counts := CountSkills(docs);
    var entries := seq(|keys|, k requires 0 <= k < |keys| => Entry(keys[k], counts[keys[k]]));
    assert entries == Entries(keys, AllSkills(docs));
    var names := Names(SortByCount(entries));
    top := names[..if |names| < 5 then |names| else 5];
  }

  /** Counting one more skill: a new key is added at the end, and the skill's count goes up by one. */
  lemma CountedSnoc(keys: seq<string>, counts: map<string, nat>, seen: seq<string>, s: string)
    requires Counted(keys, counts, seen)
    ensures (if s in counts then counts[s] else 0) == Count(seen, s)
    ensures Counted(keys + (if s in counts then [] else [s]), counts[s := Count(seen, s) + 1], seen + [s])
  {
    FirstSeenSnoc(seen, s);
    TalliedSnoc(counts, seen, s);
  }

  /** Counting one more skill raises its count by one and leaves every other count alone. */
  lemma TalliedSnoc(counts: map<string, nat>, seen: seq<string>, s: string)
    requires Tallied(counts, seen)
    ensures (s in counts <==> s in seen) && (if s in counts then counts[s] else 0) == Count(seen, s)
    ensures Tallied(counts[s := Count(seen, s) + 1], seen + [s])
  {
    var next := counts[s := Count(seen, s) + 1];
    assert multiset(seen + [s]) == multiset(seen) + multiset{s};
    forall x | x in next ensures next[x] == Count(seen + [s], x) {
      if x != s {
        assert next[x] == counts[x];
      }
    }
  }

  /** One more visited skill adds a key exactly when it is new. */
  lemma FirstSeenSnoc(s: seq<string>, x: string)
    ensures FirstSeen(s + [x]) == FirstSeen(s) + if x in s then [] else [x]
  {
    assert (s + [x])[..|s|] == s;
  }
  // ---------------------------------------------------------------------------
  // Stability: entries of equal count keep their relative order.

  /** The entries of count `c`, in their order. */
  function WithCount(es: seq<Entry>, c: nat): (r: seq<Entry>)
    ensures forall x :: x in r <==> x in es && x.count == c
  {
    if es == [] then []
    else WithCount(es[..|es| - 1], c) + if es[|es| - 1].count == c then [es[|es| - 1]] else []
  }

  lemma WithCountSnoc(es: seq<Entry>, x: Entry, c: nat)
    ensures WithCount(es + [x], c) == WithCount(es, c) + if x.count == c then [x] else []
  {
    assert (es + [x])[..|es|] == es;
  }

  /** Inserting `e` puts it after every entry of its own count, and moves no entry of another count past another. */
  lemma {:induction false} InsertStable(es: seq<Entry>, e: Entry, c: nat)
    ensures WithCount(Insert(es, e), c) == WithCount(es, c) + if e.count == c then [e] else []
  {
    if es == [] || es[|es| - 1].count >= e.count {
      assert Insert(es, e) == es + [e];
      WithCountSnoc(es, e, c);
    } else {
      var init, last := es[..|es| - 1], es[|es| - 1];
      InsertStable(init, e, c);
      assert es == init + [last];
      InsertPastStable(init, last, e, c);
    }
  }

  /** The step of `InsertStable` where `e` moves in front of a smaller last entry. */
  lemma InsertPastStable(init: seq<Entry>, last: Entry, e: Entry, c: nat)
    requires last.count < e.count
    requires WithCount(Insert(init, e), c) == WithCount(init, c) + if e.count == c then [e] else []
    ensures WithCount(Insert(init + [last], e), c) == WithCount(init + [last], c) + if e.count == c then [e] else []
  {
    var es := init + [last];
    assert es[..|es| - 1] == init;
    var mid := Insert(init, e);
    assert Insert(es, e) == mid + [last];
    WithCountSnoc(init, last, c);
    WithCountSnoc(mid, last, c);
    if e.count == c {
      assert WithCount(es, c) == WithCount(init, c);
      assert WithCount(mid + [last], c) == WithCount(init, c) + [e];
    } else {
      assert WithCount(mid, c) == WithCount(init, c);
    }
  }

  /** The sort is stable: for every count, the entries of that count keep their order. */
  lemma {:induction false} SortStable(es: seq<Entry>, c: nat)
    ensures WithCount(SortByCount(es), c) == WithCount(es, c)
  {
    if es != [] {
      var init, last := es[..|es| - 1], es[|es| - 1];
      SortStable(init, c);
      InsertStable(SortByCount(init), last, c);
    }
  }

  /** Cutting a list short cuts short each of its per-count lists. */
  lemma {:induction false} WithCountPrefix(es: seq<Entry>, k: nat, c: nat)
    requires k <= |es|
    ensures WithCount(es[..k], c) <= WithCount(es, c)
  {
    if k < |es| {
      var init := es[..|es| - 1];
      WithCountPrefix(init, k, c);
      assert init[..k] == es[..k];
    } else {
      assert es[..k] == es;
    }
  }

  // ---------------------------------------------------------------------------
  // What the answer is.

  /** There are as many keys as distinct visited skills. */
  lemma {:induction false} FirstSeenCount(s: seq<string>)
    ensures |FirstSeen(s)| == |set x | x in s|
  {
    if s != [] {
      var init, last := s[..|s| - 1], s[|s| - 1];
      FirstSeenCount(init);
      FirstSeenSnoc(init, last);
      assert s == init + [last];
      var before, after := set x | x in init, set x | x in s;
      if last in init {
        assert after == before;
      } else {
        assert after == before + {last};
        assert last !in before;
      }
    }
  }

  /** The sorted entries: every visited skill once, with its true count, by descending count. */
  lemma SortedEntries(s: seq<string>)
    ensures var sorted := SortByCount(Entries(FirstSeen(s), s));
      NonIncreasing(sorted) && DistinctSkills(sorted) &&
      (forall e :: e in sorted ==> e.skill in s && e.count == Count(s, e.skill)) &&
      (forall x :: x in s ==> Entry(x, Count(s, x)) in sorted)
  {
    var keys := FirstSeen(s);
    var es := Entries(keys, s);
    assert DistinctSkills(es);
    SortSortedDistinct(es);
    forall x | x in s ensures Entry(x, Count(s, x)) in es {
      var k :| 0 <= k < |keys| && keys[k] == x;
      assert es[k] == Entry(x, Count(s, x));
    }
    forall e | e in es ensures e.skill in s && e.count == Count(s, e.skill) {
      var k :| 0 <= k < |es| && es[k] == e;
    }
  }

  /** Five names, or every distinct skill when there are fewer, none twice, each a visited skill. */
  lemma TopShape(s: seq<string>)
    ensures |TopOf(s)| == if |set x | x in s| < 5 then |set x | x in s| else 5
    ensures Distinct(TopOf(s))
    ensures forall x :: x in TopOf(s) ==> x in s
  {
    FirstSeenCount(s);
    SortedEntries(s);
  }

  /** Counts never grow along the answer. */
  lemma TopNonIncreasing(s: seq<string>)
    ensures forall i, j :: 0 <= i < j < |TopOf(s)| ==> Count(s, TopOf(s)[i]) >= Count(s, TopOf(s)[j])
  {
    SortedEntries(s);
  }

  /** The answer names the first entries of the sorted list, five of them when there are that many. */
  lemma TopIsPrefix(s: seq<string>)
    ensures var sorted := SortByCount(Entries(FirstSeen(s), s));
      |TopOf(s)| == (if |sorted| < 5 then |sorted| else 5) &&
      forall k :: 0 <= k < |TopOf(s)| ==> TopOf(s)[k] == sorted[k].skill
  {
  }

  /** A visited skill left out of a full answer occurs no more often than the last skill returned. */
  lemma TopOmittedNotMore(s: seq<string>, x: string)
    requires x in s && x !in TopOf(s)
    ensures |TopOf(s)| == 5
    ensures Count(s, x) <= Count(s, TopOf(s)[4])
  {
    SortedEntries(s);
    TopIsPrefix(s);
    var sorted := SortByCount(Entries(FirstSeen(s), s));
    PrefixOmitsNoLarger(sorted, TopOf(s), Entry(x, Count(s, x)));
    assert sorted[4] in sorted;
  }

  /** An entry of a sorted list whose skill is not among the first names sits after a full prefix of five. */
  lemma PrefixOmitsNoLarger(sorted: seq<Entry>, top: seq<string>, e: Entry)
    requires NonIncreasing(sorted) && e in sorted
    requires |top| == (if |sorted| < 5 then |sorted| else 5)
    requires forall k :: 0 <= k < |top| ==> top[k] == sorted[k].skill
    requires e.skill !in top
    ensures |top| == 5 && e.count <= sorted[4].count
  {
    var m :| 0 <= m < |sorted| && sorted[m] == e;
    assert forall k :: 0 <= k < |top| ==> top[k] != e.skill;
    assert |top| <= m;
  }

  /**
   * Ties keep first-seen order: the returned skills of any one count are the
   * first-seen skills of that count, in the order they were first seen.
   */
  lemma TopTieBreak(s: seq<string>, c: nat)
    ensures WithCount(TopEntries(s), c) <= WithCount(Entries(FirstSeen(s), s), c)
  {
    var es := Entries(FirstSeen(s), s);
    var sorted := SortByCount(es);
    WithCountPrefix(sorted, |TopEntries(s)|, c);
    SortStable(es, c);
  }
}
