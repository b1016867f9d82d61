/**
 * The admin analytics of backend/src/controllers/adminController.js:82-98:
 * the total, three status counts, and the reports grouped by category and
 * sorted by count, largest first.
 */
module Analytics {
  import opened Models

  /** The literal the in-progress count queries; it is not in the status enum. */
  const IN_PROGRESS_QUERY: string := "In-Progress"

  datatype CategoryCount = CategoryCount(category: string, count: nat)

  datatype Summary = Summary(total: nat, pending: nat, inProgress: nat, resolved: nat, byCategory: seq<CategoryCount>)

  /** Report.countDocuments({ status }). */
  function CountStatus(rs: seq<Report>, status: string): (n: nat)
    ensures n <= |rs|
  {
    if rs == [] then 0 else (if rs[0].status == status then 1 else 0) + CountStatus(rs[1..], status)
  }

  /**
   * Counts of three different statuses never add up to more than the number
   * of reports, and add up to exactly that when every report has one of them.
   */
  lemma {:induction false} StatusCountsBounded(rs: seq<Report>, a: string, b: string, c: string)
    requires a != b && b != c && a != c
    ensures CountStatus(rs, a) + CountStatus(rs, b) + CountStatus(rs, c) <= |rs|
    ensures (forall i :: 0 <= i < |rs| ==> rs[i].status in {a, b, c}) ==>
              CountStatus(rs, a) + CountStatus(rs, b) + CountStatus(rs, c) == |rs|
  {
    if rs != [] {
      StatusCountsBounded(rs[1..], a, b, c);
      if forall i :: 0 <= i < |rs| ==> rs[i].status in {a, b, c} {
        assert forall i :: 0 <= i < |rs[1..]| ==> rs[1..][i].status in {a, b, c} by {
          forall i | 0 <= i < |rs[1..]| ensures rs[1..][i].status in {a, b, c} {
            assert rs[1..][i] == rs[i + 1];
          }
        }
      }
    }
  }

  /** On records the schema accepted, the "In-Progress" count is always zero. */
  lemma {:induction false} InProgressNeverCounted(rs: seq<Report>)
    requires forall i :: 0 <= i < |rs| ==> SchemaValid(rs[i])
    ensures CountStatus(rs, IN_PROGRESS_QUERY) == 0
  {
    if rs != [] {
      assert SchemaValid(rs[0]);
      InProgressNeverCounted(rs[1..]);
    }
  }

  function Categories(rs: seq<Report>): (cats: seq<string>)
    ensures |cats| == |rs| && forall i :: 0 <= i < |rs| ==> cats[i] == rs[i].category
  {
    seq(|rs|, i requires 0 <= i < |rs| => rs[i].category)
  }

  /** No category appears twice. */
  predicate Distinct(g: seq<CategoryCount>) {
    forall i, j :: 0 <= i < j < |g| ==> g[i].category != g[j].category
  }

  predicate Positive(g: seq<CategoryCount>) {
    forall i :: 0 <= i < |g| ==> g[i].count > 0
  }

  predicate NonIncreasing(g: seq<CategoryCount>) {
    forall i, j :: 0 <= i < j < |g| ==> g[i].count >= g[j].count
  }

  /** The count recorded for category c, 0 when it has no entry. */
  function Lookup(g: seq<CategoryCount>, c: string): nat {
    if g == [] then 0 else if g[0].category == c then g[0].count else Lookup(g[1..], c)
  }

  function Sum(g: seq<CategoryCount>): nat {
    if g == [] then 0 else g[0].count + Sum(g[1..])
  }

  /** One $group step: bump c's entry, or add an entry for it at the end. */
  function AddOne(g: seq<CategoryCount>, c: string): (r: seq<CategoryCount>)
    requires Distinct(g) && Positive(g)
    ensures Distinct(r) && Positive(r)
    ensures forall d :: Lookup(r, d) == Lookup(g, d) + (if d == c then 1 else 0)
    ensures Sum(r) == Sum(g) + 1
    ensures forall i :: 0 <= i < |r| ==> r[i].category == c || exists j :: 0 <= j < |g| && g[j].category == r[i].category
  {
    if g == [] then [CategoryCount(c, 1)]
    else if g[0].category == c then
      assert forall d :: d != c ==> Lookup(g, d) == Lookup(g[1..], d);
      LookupAbsent(g[1..], c);
      var r := [g[0].(count := g[0].count + 1)] + g[1..];
      assert r[1..] == g[1..];
      r
    else
      var rest := AddOne(g[1..], c);
      var r := [g[0]] + rest;
      assert r[1..] == rest;
      assert forall i :: 0 < i < |r| ==> r[i] == rest[i - 1];
      // Every later category is c or one of g[1..], and g[0]'s is neither.
      assert forall i :: 0 < i < |r| ==> r[i].category == c || exists j :: 1 <= j < |g| && g[j].category == r[i].category by {
        forall i | 0 < i < |r| ensures r[i].category == c || exists j :: 1 <= j < |g| && g[j].category == r[i].category {
          if r[i].category != c {
            var k :| 0 <= k < |g[1..]| && g[1..][k].category == rest[i - 1].category;
            assert g[k + 1] == g[1..][k];
          }
        }
      }
      assert forall i :: 0 < i < |r| ==> r[i].category != g[0].category;
      r
  }

  lemma {:induction false} LookupAbsent(g: seq<CategoryCount>, c: string)
    requires forall i :: 0 <= i < |g| ==> g[i].category != c
    ensures Lookup(g, c) == 0
  {
    if g != [] {
      LookupAbsent(g[1..], c);
    }
  }

  /** The $group stage over the categories, in collection order. */
  function Tally(cats: seq<string>): (t: seq<CategoryCount>)
    ensures Distinct(t) && Positive(t)
    ensures forall c :: Lookup(t, c) == multiset(cats)[c]
    ensures Sum(t) == |cats|
  {
    if cats == [] then []
    else
      var init := cats[..|cats| - 1];
      assert cats == init + [cats[|cats| - 1]];
      AddOne(Tally(init), cats[|cats| - 1])
  }

  /** Place x before the first entry with a smaller count (a stable insertion). */
  function Insert(x: CategoryCount, s: seq<CategoryCount>): (r: seq<CategoryCount>)
    requires NonIncreasing(s)
    ensures NonIncreasing(r)
    ensures multiset(r) == multiset(s) + multiset{x}
    ensures Sum(r) == x.count + Sum(s)
  {
    if s == [] then [x]
    else if s[0].count < x.count then
      ConsNonIncreasing(x, s);
      SumCons(x, s);
      [x] + s
    else
      var rest := Insert(x, s[1..]);
      assert s == [s[0]] + s[1..];
      InsertedBound(x, s, rest);
      ConsNonIncreasing(s[0], rest);
      SumCons(s[0], rest);
      [s[0]] + rest
  }

  /** An entry no smaller than the head of a non-increasing list may go in front of it. */
  lemma ConsNonIncreasing(h: CategoryCount, t: seq<CategoryCount>)
    requires NonIncreasing(t) && (t != [] ==> t[0].count <= h.count)
    ensures NonIncreasing([h] + t)
  {
    var r := [h] + t;
    forall i, j | 0 <= i < j < |r| ensures r[i].count >= r[j].count {
      if i == 0 && j > 1 {
        assert r[j] == t[j - 1];
      }
    }
  }

  lemma SumCons(h: CategoryCount, t: seq<CategoryCount>)
    ensures Sum([h] + t) == h.count + Sum(t)
  {
    assert ([h] + t)[1..] == t;
  }

  /** Inserting x (no larger than s's head) into s's tail gives entries no larger than s's head. */
  lemma InsertedBound(x: CategoryCount, s: seq<CategoryCount>, rest: seq<CategoryCount>)
    requires NonIncreasing(s) && s != [] && x.count <= s[0].count
    requires multiset(rest) == multiset(s[1..]) + multiset{x}
    ensures forall y :: y in rest ==> y.count <= s[0].count
  {
    forall y | y in rest ensures y.count <= s[0].count {
      assert y in multiset(rest);
      if y != x {
        assert y in multiset(s[1..]);
        var k :| 0 <= k < |s[1..]| && s[1..][k] == y;
        assert s[k + 1] == y;
      }
    }
  }

  /** The $sort stage: by count, largest first. */
  function SortByCountDesc(g: seq<CategoryCount>): (r: seq<CategoryCount>)
    ensures NonIncreasing(r)
    ensures multiset(r) == multiset(g)
    ensures Sum(r) == Sum(g)
  {
    if g == [] then []
    else
      assert g == [g[0]] + g[1..];
      Insert(g[0], SortByCountDesc(g[1..]))
  }

  function ByCategory(rs: seq<Report>): seq<CategoryCount> {
    SortByCountDesc(Tally(Categories(rs)))
  }

  function Summarize(rs: seq<Report>): Summary {
    Summary(|rs|, CountStatus(rs, PENDING), CountStatus(rs, IN_PROGRESS_QUERY), CountStatus(rs, RESOLVED), ByCategory(rs))
  }

  /** With distinct categories, an entry's count is what Lookup finds for its category. */
  lemma {:induction false} LookupMember(g: seq<CategoryCount>, i: nat)
    requires Distinct(g) && i < |g|
    ensures Lookup(g, g[i].category) == g[i].count
  {
    if i > 0 {
      LookupMember(g[1..], i - 1);
    }
  }

  /** A positive Lookup comes from an entry of that category. */
  lemma LookupPresent(g: seq<CategoryCount>, c: string)
    requires Lookup(g, c) > 0
    ensures exists i :: 0 <= i < |g| && g[i].category == c
  {
    if forall i :: 0 <= i < |g| ==> g[i].category != c {
      LookupAbsent(g, c);
    }
  }

  /** Entries with the same multiset have the same categories, so distinctness carries over. */
  lemma {:induction false} DistinctPermutation(g: seq<CategoryCount>, r: seq<CategoryCount>)
    requires Distinct(g) && multiset(r) == multiset(g)
    ensures Distinct(r)
  {
    forall i, j | 0 <= i < j < |r| ensures r[i].category != r[j].category {
      if r[i].category == r[j].category {
        assert r[i] in multiset(g) && r[j] in multiset(g);
        var a :| 0 <= a < |g| && g[a] == r[i];
        var b :| 0 <= b < |g| && g[b] == r[j];
        if a == b {
          // the same entry twice in r needs it twice in g
          assert r[i] == r[j];
          MultisetTwice(r, i, j);
          MultisetOnce(g, a);
          assert false;
        }
      }
    }
  }

  lemma MultisetTwice(s: seq<CategoryCount>, i: nat, j: nat)
    requires i < j < |s| && s[i] == s[j]
    ensures multiset(s)[s[i]] >= 2
  {
    var x := s[i];
    assert s == s[..i] + [x] + s[i + 1..j] + [x] + s[j + 1..];
  }

  lemma MultisetOnce(s: seq<CategoryCount>, a: nat)
    requires a < |s| && Distinct(s)
    ensures multiset(s)[s[a]] == 1
  {
    var x := s[a];
    assert s == s[..a] + [x] + s[a + 1..];
    assert x !in s[..a] by {
      forall k | 0 <= k < a ensures s[..a][k] != x { assert s[k].category != x.category; }
    }
    var after := s[a + 1..];
    assert x !in after by {
      forall k | 0 <= k < |after| ensures after[k] != x { assert s[a + 1 + k].category != x.category; }
    }
  }

  /**
   * byCategory has one entry per distinct category; each entry counts exactly
   * the reports of its category; the counts add up to the total and never
   * increase along the list.
   */
  lemma ByCategoryFacts(rs: seq<Report>)
    ensures var b := ByCategory(rs);
      && Distinct(b)
      && (forall i :: 0 <= i < |b| ==> b[i].count == multiset(Categories(rs))[b[i].category] > 0)
      && (forall k :: 0 <= k < |rs| ==> exists i :: 0 <= i < |b| && b[i].category == rs[k].category)
      && Sum(b) == |rs|
      && NonIncreasing(b)
  {
    var cats := Categories(rs);
    var t := Tally(cats);
    var b := ByCategory(rs);
    DistinctPermutation(t, b);
    forall i | 0 <= i < |b| ensures b[i].count == multiset(cats)[b[i].category] > 0 {
      assert b[i] in multiset(t);
      var a :| 0 <= a < |t| && t[a] == b[i];
      LookupMember(t, a);
    }
    forall k | 0 <= k < |rs| ensures exists i :: 0 <= i < |b| && b[i].category == rs[k].category {
      var c := rs[k].category;
      assert cats[k] == c;
      assert c in multiset(cats);
      LookupPresent(t, c);
      var a :| 0 <= a < |t| && t[a].category == c;
      assert t[a] in multiset(b);
    }
  }

  /** What the analytics endpoint reports about a collection of records the schema accepted. */
  lemma SummaryFacts(rs: seq<Report>)
    requires forall i :: 0 <= i < |rs| ==> SchemaValid(rs[i])
    ensures var s := Summarize(rs);
      && s.pending + s.inProgress + s.resolved <= s.total == |rs|
      && s.inProgress == 0
      && Sum(s.byCategory) == s.total
  {
    StatusCountsBounded(rs, PENDING, IN_PROGRESS_QUERY, RESOLVED);
    InProgressNeverCounted(rs);
    ByCategoryFacts(rs);
  }
}
