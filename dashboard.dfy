/**
 * The department dashboard (department-dashboard/src/pages/Dashboard.jsx):
 * the status counts over the fetched reports, the status filter with the
 * case-insensitive search, and the new-issue notice of a refresh. The HTTP
 * calls, the timers and the rendering are not modelled.
 */
module Dashboard {
  import opened Text
  import opened Models
  import Analytics

  /** The value of the status filter that keeps every status. */
  const ALL_FILTER: string := "All"

  datatype Stats = Stats(total: nat, pending: nat, inProgress: nat, resolved: nat)

  /**
   * stats: the list length and the three exact status counts. The counts
   * never exceed the total; when every report carries one of the enum's
   * statuses they add up to it exactly.
   */
  function StatsOf(reports: seq<Report>): (s: Stats)
    ensures s.total == |reports|
    ensures s.pending + s.inProgress + s.resolved <= s.total
    ensures (forall i :: 0 <= i < |reports| ==> ValidStatus(reports[i].status)) ==>
              s.pending + s.inProgress + s.resolved == s.total
  {
    Analytics.StatusCountsBounded(reports, PENDING, IN_PROGRESS, RESOLVED);
    Stats(|reports|, Analytics.CountStatus(reports, PENDING), Analytics.CountStatus(reports, IN_PROGRESS),
          Analytics.CountStatus(reports, RESOLVED))
  }

  /** The filter callback: the status matches (or the filter is "All") and the title or the description contains the query, ignoring case. */
  predicate Kept(r: Report, filter: string, query: string) {
    (filter == ALL_FILTER || r.status == filter)
    && (ContainsCI(r.title, query) || ContainsCI(r.description, query))
  }

  /** filteredReports: reports.filter(Kept). */
  function FilteredReports(reports: seq<Report>, filter: string, query: string): (kept: seq<Report>)
    ensures |kept| <= |reports|
    ensures forall r :: r in kept <==> r in reports && Kept(r, filter, query)
  {
    if reports == [] then []
    else (if Kept(reports[0], filter, query) then [reports[0]] else []) + FilteredReports(reports[1..], filter, query)
  }

  /** a is b with some elements left out, the rest in their order. */
  predicate IsSubsequence<T(==)>(a: seq<T>, b: seq<T>)
    decreases |b|
  {
    if a == [] then true
    else if b == [] then false
    else if a[0] == b[0] then IsSubsequence(a[1..], b[1..])
    else IsSubsequence(a, b[1..])
  }

  /** Filtering keeps the order of the reports it keeps. */
  lemma {:induction false} FilteredIsSubsequence(reports: seq<Report>, filter: string, query: string)
    ensures IsSubsequence(FilteredReports(reports, filter, query), reports)
  {
    if reports != [] {
      var rest := FilteredReports(reports[1..], filter, query);
      FilteredIsSubsequence(reports[1..], filter, query);
      if Kept(reports[0], filter, query) {
        var kept := [reports[0]] + rest;
        assert kept[0] == reports[0] && kept[1..] == rest;
      } else {
        assert FilteredReports(reports, filter, query) == rest;
        SubsequenceOfTail(rest, reports);
      }
    }
  }

  /** A subsequence of the tail is a subsequence of the whole. */
  lemma {:induction false} SubsequenceOfTail<T>(a: seq<T>, b: seq<T>)
    requires b != [] && IsSubsequence(a, b[1..])
    ensures IsSubsequence(a, b)
    decreases |b|, 0
  {
    if a != [] && a[0] == b[0] {
      // a[1..] is a subsequence of a, hence of b[1..].
      DropHead(a, b[1..]);
    }
  }

  /** Leaving out the first element of a subsequence leaves a subsequence. */
  lemma {:induction false} DropHead<T>(a: seq<T>, b: seq<T>)
    requires a != [] && IsSubsequence(a, b)
    ensures IsSubsequence(a[1..], b)
    decreases |b|, 1
  {
    assert b != [];
    if a[0] == b[0] {
      assert IsSubsequence(a[1..], b[1..]);
      if b[1..] != [] {
        SubsequenceOfTail(a[1..], b);
      } else {
        assert a[1..] == [];
      }
    } else {
      DropHead(a, b[1..]);
      SubsequenceOfTail(a[1..], b);
    }
  }

  /** With the filter at "All" and an empty search box, every report is shown, in order. */
  lemma {:induction false} AllWithEmptyQueryKeepsEverything(reports: seq<Report>)
    ensures FilteredReports(reports, ALL_FILTER, "") == reports
  {
    if reports != [] {
      ContainsEmpty(Lower(reports[0].title));
      assert Kept(reports[0], ALL_FILTER, "");
      AllWithEmptyQueryKeepsEverything(reports[1..]);
    }
  }

  /** A search for a report's own title finds it under the "All" filter. */
  lemma TitleSearchFindsReport(reports: seq<Report>, i: nat)
    requires i < |reports|
    ensures reports[i] in FilteredReports(reports, ALL_FILTER, reports[i].title)
  {
    ContainsCISelf(reports[i].title);
  }

  /** The component's state that a fetch updates. */
  class DashboardView {
    var reports: seq<Report>
    var prevCount: nat
    /** How many "New issue reported!" notices were shown. */
    var notices: nat

    constructor ()
      ensures reports == [] && prevCount == 0 && notices == 0
    {
      reports := [];
      prevCount := 0;
      notices := 0;
    }

    /**
     * A successful fetchReports with the list `data`: the notice fires iff
     * the list grew and this is not the first load; then the list and the
     * count are replaced.
     */
    method ApplyFetch(data: seq<Report>) returns (notified: bool)
      modifies this
      ensures notified <==> |data| > old(prevCount) && old(prevCount) != 0
      ensures notices == old(notices) + (if notified then 1 else 0)
      ensures reports == data && prevCount == |data|
    {
      notified := |data| > prevCount && prevCount != 0;
      if notified {
        notices := notices + 1;
      }
      reports := data;
      prevCount := |data|;
    }
  }

  /** The first load never raises the notice, however many reports arrive. */
  method FirstLoadIsSilent(data: seq<Report>) returns (notified: bool)
    ensures !notified
  {
    var view := new DashboardView();
    notified := view.ApplyFetch(data);
  }

  /** After a load of n > 0 reports, a refresh raises the notice iff it returns more than n. */
  method RefreshAfterLoad(first: seq<Report>, second: seq<Report>) returns (notified: bool)
    requires first != []
    ensures notified <==> |second| > |first|
  {
    var view := new DashboardView();
    var _ := view.ApplyFetch(first);
    notified := view.ApplyFetch(second);
  }
}
