/**
 * The admin routes: the items-by-status summary built from the grouped
 * counts, the report listing (optionally filtered by status, newest first,
 * fifty rows at most) and the report status update. The counts of users,
 * items and reports and the populated references are not modelled.
 */
module Admin {
  import opened Sorting

  /** One row of the `$group` on the item status: the status (`""` for null) and its count. */
  datatype Group = Group(id: string, count: int)

  /** `cur._id || 'unknown'`. */
  function Label(g: Group): string {
    if g.id != "" then g.id else "unknown"
  }

  /** `byStatus.reduce((acc, cur) => ({ ...acc, [label]: cur.count }), {})`, a left fold. */
  function StatusMap(groups: seq<Group>): map<string, int> {
    if groups == [] then map[]
    else StatusMap(groups[..|groups| - 1])[Label(groups[|groups| - 1]) := groups[|groups| - 1].count]
  }

  /**
   * The keys are exactly the labels of the groups, and each label maps to the
   * count of the last group carrying it; with distinct labels, as a `$group`
   * on a non-null status gives, every group's count is its label's value.
   */
  lemma {:induction false} StatusMapSpec(groups: seq<Group>)
    ensures forall k :: k in StatusMap(groups) <==> exists i :: 0 <= i < |groups| && Label(groups[i]) == k
    ensures forall i :: 0 <= i < |groups| && (forall j :: i < j < |groups| ==> Label(groups[j]) != Label(groups[i])) ==>
      Label(groups[i]) in StatusMap(groups) && StatusMap(groups)[Label(groups[i])] == groups[i].count
  {
    StatusMapKeys(groups);
    forall i | 0 <= i < |groups| && (forall j :: i < j < |groups| ==> Label(groups[j]) != Label(groups[i]))
      ensures Label(groups[i]) in StatusMap(groups) && StatusMap(groups)[Label(groups[i])] == groups[i].count
    {
      StatusMapLast(groups, i);
    }
  }

  /** The keys are the labels of the groups. */
  lemma {:induction false} StatusMapKeys(groups: seq<Group>)
    ensures forall k :: k in StatusMap(groups) <==> exists i :: 0 <= i < |groups| && Label(groups[i]) == k
  {
    if groups != [] {
      var n := |groups| - 1;
      var front := groups[..n];
      StatusMapKeys(front);
      forall k
        ensures k in StatusMap(groups) <==> exists i :: 0 <= i < |groups| && Label(groups[i]) == k
      {
        if k in StatusMap(front) && k != Label(groups[n]) {
          var i :| 0 <= i < |front| && Label(front[i]) == k;
          assert groups[i] == front[i];
        }
        if i :| 0 <= i < |groups| && Label(groups[i]) == k {
          if i < n {
            assert front[i] == groups[i];
          }
        }
      }
    }
  }

  /** A group whose label no later group carries gives its label its count. */
  lemma {:induction false} StatusMapLast(groups: seq<Group>, i: nat)
    requires i < |groups| && forall j :: i < j < |groups| ==> Label(groups[j]) != Label(groups[i])
    ensures Label(groups[i]) in StatusMap(groups) && StatusMap(groups)[Label(groups[i])] == groups[i].count
  {
    var n := |groups| - 1;
    if i < n {
      var front := groups[..n];
      assert front[i] == groups[i];
      forall j | i < j < |front|
        ensures Label(front[j]) != Label(front[i])
      {
        assert front[j] == groups[j];
      }
      StatusMapLast(front, i);
      assert Label(groups[n]) != Label(groups[i]);
    }
  }

  /** A stored report; `status` is `open` or `resolved`, and `createdAt` is in milliseconds. */
  datatype Report = Report(id: string, item: string, reporter: string, reason: string,
                           message: string, status: string, createdAt: int)

  const ListLimit: nat := 50

  /** `status ? { status } : {}`: an absent (empty) status matches every report. */
  predicate MatchesStatus(status: string, r: Report) {
    status == "" || r.status == status
  }

  function Newest(r: Report): int {
    -r.createdAt
  }

  function Min(a: int, b: int): int {
    if a <= b then a else b
  }

  /** `Report.find(query).sort({ createdAt: -1 }).limit(50)`. */
  function ListReports(reports: seq<Report>, status: string): seq<Report> {
    var sorted := SortBy(Filter(reports, (r: Report) => MatchesStatus(status, r)), Newest);
    sorted[..Min(ListLimit, |sorted|)]
  }

  /** The first `k` of a newest-first permutation of `m`. */
  lemma TakeNewest(m: seq<Report>, sorted: seq<Report>, k: nat)
    requires multiset(sorted) == multiset(m) && SortedBy(sorted, Newest) && k == Min(ListLimit, |sorted|)
    ensures var r := sorted[..k];
      (forall i :: 0 <= i < |r| ==> r[i] in m) &&
      (forall i, j :: 0 <= i < j < |r| ==> r[i].createdAt >= r[j].createdAt) &&
      multiset(r) <= multiset(m) &&
      (forall x :: x in multiset(m) - multiset(r) ==> |r| == ListLimit && x.createdAt <= r[|r| - 1].createdAt)
  {
    var r := sorted[..k];
    assert sorted == r + sorted[k..];
    assert multiset(sorted) == multiset(r) + multiset(sorted[k..]);
    forall i | 0 <= i < |r|
      ensures r[i] in m
    {
      assert r[i] in multiset(sorted);
    }
    forall i, j | 0 <= i < j < |r|
      ensures r[i].createdAt >= r[j].createdAt
    {
      assert Newest(sorted[i]) <= Newest(sorted[j]);
    }
    forall x | x in multiset(m) - multiset(r)
      ensures |r| == ListLimit && x.createdAt <= r[|r| - 1].createdAt
    {
      assert x in multiset(sorted[k..]);
      LeftOutIsOlder(sorted, k, x);
    }
  }

  /** Whatever lies past the cut of a newest-first list is no newer than the last row kept. */
  lemma LeftOutIsOlder(sorted: seq<Report>, k: nat, x: Report)
    requires SortedBy(sorted, Newest) && k == Min(ListLimit, |sorted|) && x in multiset(sorted[k..])
    ensures k == ListLimit && x.createdAt <= sorted[k - 1].createdAt
  {
    var j :| 0 <= j < |sorted[k..]| && sorted[k..][j] == x;
    assert sorted[k + j] == x;
    assert Newest(sorted[k - 1]) <= Newest(sorted[k + j]);
  }

  /**
   * The listing holds only matching stored reports, newest first, as many as
   * match up to fifty; every matching report it leaves out is no newer than
   * its last row, and it leaves one out only when it is full.
   */
  lemma ListReportsSpec(reports: seq<Report>, status: string)
    ensures var r := ListReports(reports, status);
      var matching := Filter(reports, (x: Report) => MatchesStatus(status, x));
      |r| == Min(ListLimit, |matching|) &&
      (forall i :: 0 <= i < |r| ==> r[i] in reports && MatchesStatus(status, r[i])) &&
      (forall i, j :: 0 <= i < j < |r| ==> r[i].createdAt >= r[j].createdAt) &&
      multiset(r) <= multiset(matching) &&
      (forall x :: x in multiset(matching) - multiset(r) ==> |r| == ListLimit && x.createdAt <= r[|r| - 1].createdAt)
  {
    var matching := Filter(reports, (x: Report) => MatchesStatus(status, x));
    var sorted := SortBy(matching, Newest);
    FilterMembers(reports, (x: Report) => MatchesStatus(status, x));
    assert |sorted| == |multiset(sorted)| == |matching|;
    TakeNewest(matching, sorted, Min(ListLimit, |sorted|));
  }

  /** The statuses a report may be set to. */
  predicate IsReportStatus(s: string) {
    s == "open" || s == "resolved"
  }

  /** The position of the report with the given id, if any. */
  function FindReport(reports: seq<Report>, id: string): (k: int)
    ensures -1 <= k < |reports|
    ensures k >= 0 ==> reports[k].id == id
    ensures k == -1 <==> forall i :: 0 <= i < |reports| ==> reports[i].id != id
  {
    if reports == [] then -1
    else if reports[|reports| - 1].id == id then |reports| - 1
    else FindReport(reports[..|reports| - 1], id)
  }

  /** The stored reports: distinct ids and statuses out of the schema's enum. */
  predicate ValidReports(reports: seq<Report>) {
    (forall i, j :: 0 <= i < j < |reports| ==> reports[i].id != reports[j].id) &&
    (forall i :: 0 <= i < |reports| ==> IsReportStatus(reports[i].status))
  }

  /** Setting an allowed status on one report keeps the store valid and leaves the others as they were. */
  lemma SetStatusKeepsValid(reports: seq<Report>, k: int, status: string)
    requires ValidReports(reports) && 0 <= k < |reports| && IsReportStatus(status)
    ensures ValidReports(reports[k := reports[k].(status := status)])
    ensures forall i :: 0 <= i < |reports| && i != k ==> reports[k := reports[k].(status := status)][i] == reports[i]
  {
  }

  /** The report collection. */
  class ReportStore {
    var reports: seq<Report>

    ghost predicate Valid()
      reads this
    {
      ValidReports(reports)
    }

    constructor ()
      ensures reports == [] && Valid()
    {
      reports := [];
    }

    /**
     * `PUT /reports/:id/status`: 400 for a status other than `open` or
     * `resolved` and 404 for an unknown report, both changing nothing;
     * otherwise the report takes the status, which the response echoes.
     */
    method SetStatus(id: string, status: string) returns (code: int, body: string)
      requires Valid()
      modifies this
      ensures Valid()
      ensures !IsReportStatus(status) ==> code == 400 && body == "Invalid status" && reports == old(reports)
      ensures IsReportStatus(status) && FindReport(old(reports), id) == -1 ==>
        code == 404 && body == "Not found" && reports == old(reports)
      ensures IsReportStatus(status) && FindReport(old(reports), id) >= 0 ==>
        var k := FindReport(old(reports), id);
        code == 200 && body == status && reports == old(reports)[k := old(reports)[k].(status := status)] &&
        reports[k].id == id && reports[k].status == status
    {
      if !IsReportStatus(status) {
        return 400, "Invalid status";
      }
      var k := FindReport(reports, id);
      if k == -1 {
        return 404, "Not found";
      }
      SetStatusKeepsValid(reports, k, status);
      reports := reports[k := reports[k].(status := status)];
      return 200, reports[k].status;
    }
  }

  /** After an update the report is listed under its new status and no longer under the other one. */
  lemma SetStatusRelists(reports: seq<Report>, k: int, status: string)
    requires 0 <= k < |reports| && IsReportStatus(status)
    ensures var after := reports[k := reports[k].(status := status)];
      after[k] in Filter(after, (x: Report) => MatchesStatus(status, x)) &&
      forall other :: IsReportStatus(other) && other != status ==>
        after[k] !in Filter(after, (x: Report) => MatchesStatus(other, x))
  {
    var after := reports[k := reports[k].(status := status)];
    FilterMembers(after, (x: Report) => MatchesStatus(status, x));
    forall other | IsReportStatus(other) && other != status
      ensures after[k] !in Filter(after, (x: Report) => MatchesStatus(other, x))
    {
      FilterMembers(after, (x: Report) => MatchesStatus(other, x));
    }
  }
}
