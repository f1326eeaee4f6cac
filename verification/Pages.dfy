/**
 Listing jobs page by page (pkg/jobdb/runtime/sqlite/runtime.go, pkg/jobdb/list_jobs.go) and the
 search for waiting tasks built on it (pkg/workflow/runtime_task_handle.go), over an unchanged
 table at one clock reading.  A request's filters are one predicate on jobs.
 */
module Pages {
  import opened Retry
  import opened JobTable

  /** `name` is "tenant/job". */
  datatype Job = Job(created: int, name: string, wait: bool, need: string)

  datatype Cursor = Cursor(created: int, name: string)

  const DEFAULT_PAGE_SIZE: nat := 100
  const MAX_PAGE_SIZE: nat := 200

  function CursorOf(j: Job): Cursor {
    Cursor(j.created, j.name)
  }

  /** j comes strictly before the cursor's job in a newest-first listing. */
  predicate Newer(j: Job, c: Cursor) {
    j.created > c.created || (j.created == c.created && Before(c.name, j.name))
  }

  /** What a page after the cursor may hold. */
  predicate Past(j: Job, after: Option<Cursor>) {
    after.Some? ==>
      !(j.created > after.value.created) && !(j.created == after.value.created && !Before(j.name, after.value.name))
  }

  function Filter(jobs: seq<Job>, keep: Job -> bool): seq<Job> {
    if jobs == [] then []
    else if keep(jobs[0]) then [jobs[0]] + Filter(jobs[1..], keep)
    else Filter(jobs[1..], keep)
  }

  function Insert(j: Job, sorted: seq<Job>): seq<Job> {
    if sorted == [] || Newer(j, CursorOf(sorted[0])) then [j] + sorted else [sorted[0]] + Insert(j, sorted[1..])
  }

  /** Newest first; equal times by name, later names first. */
  function Sort(jobs: seq<Job>): seq<Job> {
    if jobs == [] then [] else Insert(jobs[0], Sort(jobs[1..]))
  }

  function PageSize(requested: int): (size: nat)
    ensures 0 < size <= MAX_PAGE_SIZE
  {
    if requested <= 0 then DEFAULT_PAGE_SIZE else if requested > MAX_PAGE_SIZE then MAX_PAGE_SIZE else requested
  }

  /** A page is as long as asked, up to 200; 100 if nothing was asked. */
  lemma PageSizeIsKept(requested: int)
    ensures 1 <= requested <= 200 ==> PageSize(requested) == requested
    ensures requested > 200 ==> PageSize(requested) == 200
    ensures requested < 1 ==> PageSize(requested) == 100
  {
  }

  /** The rows a listing continues with. */
  function Continuing(after: Option<Cursor>): Job -> bool {
    (j: Job) => Past(j, after)
  }

  function Both(keep: Job -> bool, also: Job -> bool): Job -> bool {
    (j: Job) => keep(j) && also(j)
  }

  datatype Page = Page(jobs: seq<Job>, next: Option<Cursor>)

  /** One answer, and the cursor to continue with. */
  function Listed(table: seq<Job>, keep: Job -> bool, after: Option<Cursor>, pageSize: int): Page {
    var size := PageSize(pageSize);
    var out := Sort(Filter(table, Both(keep, Continuing(after))));
    if |out| > size then Page(out[..size], Some(CursorOf(out[size - 1]))) else Page(out, None)
  }

  // Names are ordered totally.

  lemma {:induction false} BeforeIsTotal(a: string, b: string)
    ensures a == b || Before(a, b) || Before(b, a)
    ensures !(Before(a, b) && Before(b, a)) && (Before(a, b) ==> a != b)
    decreases |a|
  {
    if a != [] && b != [] && a[0] == b[0] {
      BeforeIsTotal(a[1..], b[1..]);
      assert a == [a[0]] + a[1..] && b == [b[0]] + b[1..];
    }
  }

  lemma {:induction false} BeforeIsTransitive(a: string, b: string, c: string)
    requires Before(a, b) && Before(b, c)
    ensures Before(a, c)
    decreases |a|
  {
    if a != [] && a[0] == b[0] == c[0] {
      BeforeIsTransitive(a[1..], b[1..], c[1..]);
    }
  }

  /** Strictly newest first, so no two entries are the same job. */
  ghost predicate NewestFirst(jobs: seq<Job>) {
    forall i, j :: 0 <= i < j < |jobs| ==> Newer(jobs[i], CursorOf(jobs[j]))
  }

  ghost predicate DistinctNames(jobs: seq<Job>) {
    forall i, j :: 0 <= i < j < |jobs| ==> jobs[i].name != jobs[j].name
  }

  lemma NewerOrOlder(a: Job, b: Job)
    requires a.name != b.name
    ensures Newer(a, CursorOf(b)) <==> !Newer(b, CursorOf(a))
  {
    BeforeIsTotal(a.name, b.name);
  }

  lemma NewerIsTransitive(a: Job, b: Job, c: Job)
    requires Newer(a, CursorOf(b)) && Newer(b, CursorOf(c))
    ensures Newer(a, CursorOf(c))
  {
    if a.created == b.created == c.created { BeforeIsTransitive(c.name, b.name, a.name); }
  }

  lemma {:induction false} InsertAdds(j: Job, s: seq<Job>)
    ensures multiset(Insert(j, s)) == multiset{j} + multiset(s)
    decreases |s|
  {
    if s == [] {
    } else {
      assert s == [s[0]] + s[1..];
      if !Newer(j, CursorOf(s[0])) { InsertAdds(j, s[1..]); }
    }
  }

  lemma {:induction false} InsertKeepsOrder(j: Job, s: seq<Job>)
    requires NewestFirst(s) && forall i :: 0 <= i < |s| ==> s[i].name != j.name
    ensures NewestFirst(Insert(j, s))
    decreases |s|
  {
    if s == [] {
    } else {
      if Newer(j, CursorOf(s[0])) {
        forall i | 1 <= i < |s| ensures Newer(j, CursorOf(s[i])) { NewerIsTransitive(j, s[0], s[i]); }
      } else {
        NewerOrOlder(j, s[0]);
        InsertKeepsOrder(j, s[1..]);
        InsertAdds(j, s[1..]);
        var r := Insert(j, s[1..]);
        forall i | 0 <= i < |r| ensures Newer(s[0], CursorOf(r[i])) {
          assert r[i] in multiset(r);
          if r[i] != j { assert r[i] in s[1..]; }
        }
      }
    }
  }

  lemma {:induction false} SortSorts(jobs: seq<Job>)
    requires DistinctNames(jobs)
    ensures NewestFirst(Sort(jobs)) && multiset(Sort(jobs)) == multiset(jobs)
    decreases |jobs|
  {
    if jobs == [] {
    } else {
      assert jobs == [jobs[0]] + jobs[1..];
      SortSorts(jobs[1..]);
      var s := Sort(jobs[1..]);
      forall i | 0 <= i < |s| ensures s[i].name != jobs[0].name {
        assert s[i] in multiset(s);
        var k :| 0 <= k < |jobs[1..]| && jobs[1..][k] == s[i];
        assert jobs[k + 1] == s[i];
      }
      InsertKeepsOrder(jobs[0], s);
      InsertAdds(jobs[0], s);
    }
  }

  /** In a sorted listing later jobs come first, and of two created at one time the one whose name is
      greater in byte order. */
  lemma ListingOrder(jobs: seq<Job>, i: nat, j: nat)
    requires DistinctNames(jobs) && i < j < |Sort(jobs)|
    ensures
      var a, b := Sort(jobs)[i], Sort(jobs)[j];
      || a.created > b.created
      || (a.created == b.created && a.name != b.name
          && (b.name <= a.name || exists n: nat :: FirstDifference(b.name, a.name, n) && b.name[n] < a.name[n]))
  {
    SortSorts(jobs);
    BeforeIsByteOrder(Sort(jobs)[j].name, Sort(jobs)[i].name);
  }

  // Filtering before sorting is filtering after sorting.

  lemma FilterCons(j: Job, rest: seq<Job>, keep: Job -> bool)
    ensures Filter([j] + rest, keep) == if keep(j) then [j] + Filter(rest, keep) else Filter(rest, keep)
  {
    assert ([j] + rest)[1..] == rest;
  }

  lemma {:induction false} FilterInsert(j: Job, s: seq<Job>, keep: Job -> bool)
    requires NewestFirst(s) && forall i :: 0 <= i < |s| ==> s[i].name != j.name
    ensures Filter(Insert(j, s), keep) == if keep(j) then Insert(j, Filter(s, keep)) else Filter(s, keep)
    decreases |s|
  {
    if s == [] || Newer(j, CursorOf(s[0])) {
      FilterCons(j, s, keep);
      if keep(j) && s != [] { InsertAtFront(j, s, keep); }
    } else {
      FilterCons(s[0], Insert(j, s[1..]), keep);
      FilterInsert(j, s[1..], keep);
      var rest := Filter(s[1..], keep);
      if keep(s[0]) {
        assert Filter(s, keep) == [s[0]] + rest;
        assert ([s[0]] + rest)[1..] == rest;
      } else {
        assert Filter(s, keep) == rest;
      }
    }
  }

  lemma InsertAtFront(j: Job, s: seq<Job>, keep: Job -> bool)
    requires NewestFirst(s) && s != [] && Newer(j, CursorOf(s[0]))
    ensures Insert(j, Filter(s, keep)) == [j] + Filter(s, keep)
  {
    FilterTakes(s, keep);
    if Filter(s, keep) != [] {
      var first := Filter(s, keep)[0];
      assert first in Filter(s, keep);
      var i :| 0 <= i < |s| && s[i] == first;
      if i > 0 { NewerIsTransitive(j, s[0], s[i]); }
    }
  }

  lemma {:induction false} FilterTakes(s: seq<Job>, keep: Job -> bool)
    ensures forall x :: x in Filter(s, keep) <==> x in s && keep(x)
    decreases |s|
  {
    if s == [] {
    } else {
      FilterTakes(s[1..], keep);
      assert s == [s[0]] + s[1..];
    }
  }

  lemma {:induction false} SortedFilter(jobs: seq<Job>, keep: Job -> bool)
    requires DistinctNames(jobs)
    ensures Filter(Sort(jobs), keep) == Sort(Filter(jobs, keep))
    decreases |jobs|
  {
    if jobs == [] {
    } else {
      SortedFilter(jobs[1..], keep);
      SortSorts(jobs[1..]);
      var s := Sort(jobs[1..]);
      forall i | 0 <= i < |s| ensures s[i].name != jobs[0].name {
        assert s[i] in multiset(s);
        var k :| 0 <= k < |jobs[1..]| && jobs[1..][k] == s[i];
        assert jobs[k + 1] == s[i];
      }
      FilterInsert(jobs[0], s, keep);
      if keep(jobs[0]) { assert ([jobs[0]] + Filter(jobs[1..], keep))[1..] == Filter(jobs[1..], keep); }
    }
  }

  lemma {:induction false} FilterBoth(jobs: seq<Job>, keep: Job -> bool, also: Job -> bool)
    ensures Filter(Filter(jobs, keep), also) == Filter(jobs, Both(keep, also))
    decreases |jobs|
  {
    if jobs == [] {
    } else {
      FilterBoth(jobs[1..], keep, also);
      if keep(jobs[0]) { FilterCons(jobs[0], Filter(jobs[1..], keep), also); }
      assert Both(keep, also)(jobs[0]) == (keep(jobs[0]) && also(jobs[0]));
    }
  }

  lemma {:induction false} FilterDistinct(jobs: seq<Job>, keep: Job -> bool)
    requires DistinctNames(jobs)
    ensures DistinctNames(Filter(jobs, keep))
    decreases |jobs|
  {
    if jobs == [] {
    } else {
      FilterDistinct(jobs[1..], keep);
      FilterTakes(jobs[1..], keep);
      var rest := Filter(jobs[1..], keep);
      forall i | 0 <= i < |rest| ensures rest[i].name != jobs[0].name {
        assert rest[i] in rest;
        var k :| 0 <= k < |jobs[1..]| && jobs[1..][k] == rest[i];
        assert jobs[k + 1] == rest[i];
      }
    }
  }

  lemma FilterNone(keep: Job -> bool)
    ensures Filter([], keep) == []
  {
  }

  /** Past its k-th entry a newest-first list is its own tail. */
  lemma {:induction false} PastIsTail(s: seq<Job>, k: nat, upTo: nat)
    requires NewestFirst(s) && k < |s| && upTo <= |s|
    ensures Filter(s[upTo..], Continuing(Some(CursorOf(s[k])))) == if upTo <= k then s[k + 1..] else s[upTo..]
    decreases |s| - upTo
  {
    hide Filter;
    var keep := Continuing(Some(CursorOf(s[k])));
    if upTo == |s| {
      FilterNone(keep);
    } else {
      assert s[upTo..] == [s[upTo]] + s[upTo + 1..];
      FilterCons(s[upTo], s[upTo + 1..], keep);
      PastIsTail(s, k, upTo + 1);
      BeforeIsTotal(s[upTo].name, s[k].name);
      if upTo < k { assert Newer(s[upTo], CursorOf(s[k])); }
      if upTo > k { assert Newer(s[k], CursorOf(s[upTo])); }
      assert keep(s[upTo]) == (upTo > k);
    }
  }

  function All(table: seq<Job>, keep: Job -> bool): seq<Job> {
    Sort(Filter(table, keep))
  }

  /** The cursor of the page that ended with the k-th match. */
  function CursorAt(all: seq<Job>, k: nat): Option<Cursor>
    requires k <= |all|
  {
    if k == 0 then None else Some(CursorOf(all[k - 1]))
  }

  lemma TailOfAll(table: seq<Job>, keep: Job -> bool, k: nat)
    requires DistinctNames(table) && k <= |All(table, keep)|
    ensures Sort(Filter(table, Both(keep, Continuing(CursorAt(All(table, keep), k))))) == All(table, keep)[k..]
  {
    hide Sort, Filter;
    var all := All(table, keep);
    var past := Continuing(CursorAt(all, k));
    FilterDistinct(table, keep);
    SortSorts(Filter(table, keep));
    SortedFilter(Filter(table, keep), past);
    FilterBoth(table, keep, past);
    assert all[0..] == all;
    if k == 0 {
      FilterAll(all, past);
    } else {
      PastIsTail(all, k - 1, 0);
    }
  }

  /** A page that continues after the k-th match is the next stretch of the full listing. */
  lemma PageIsStretch(table: seq<Job>, keep: Job -> bool, k: nat, pageSize: int)
    requires DistinctNames(table) && k <= |All(table, keep)|
    ensures
      var all := All(table, keep);
      var size := PageSize(pageSize);
      Listed(table, keep, CursorAt(all, k), pageSize) ==
        if |all| - k > size then Page(all[k..k + size], CursorAt(all, k + size)) else Page(all[k..], None)
  {
    hide Sort, Filter;
    TailOfAll(table, keep, k);
  }

  lemma {:induction false} FilterAll(jobs: seq<Job>, keep: Job -> bool)
    requires forall j :: keep(j)
    ensures Filter(jobs, keep) == jobs
    decreases |jobs|
  {
    if jobs != [] { FilterAll(jobs[1..], keep); }
  }

  lemma FilterNext(out: seq<Job>, table: seq<Job>, i: nat, keep: Job -> bool)
    requires i < |table|
    ensures out + Filter(table[i..], keep)
         == (if keep(table[i]) then out + [table[i]] else out) + Filter(table[i + 1..], keep)
  {
    assert table[i..] == [table[i]] + table[i + 1..];
    FilterCons(table[i], table[i + 1..], keep);
  }

  /** The row loop of one listing; the final sort is the library's. */
  method ListJobs(table: seq<Job>, keep: Job -> bool, after: Option<Cursor>, pageSize: int) returns (page: Page)
    ensures page == Listed(table, keep, after, pageSize)
  {
    var size := PageSize(pageSize);
    var out := [];
    ghost var both := Both(keep, Continuing(after));
    assert table[0..] == table && [] + Filter(table, both) == Filter(table, both);
    var i := 0;
    while i < |table|
      invariant 0 <= i <= |table|
      invariant out + Filter(table[i..], both) == Filter(table, both)
    {
      hide Filter;
      var row := table[i];
      FilterNext(out, table, i, both);
      i := i + 1;
      if !keep(row) { continue; }
      if after.Some? {
        if row.created > after.value.created { continue; }
        if row.created == after.value.created && !Before(row.name, after.value.name) { continue; }
      }
      out := out + [row];
    }
    assert out + [] == out;
    out := Sort(out);
    if |out| > size {
      return Page(out[..size], Some(CursorOf(out[size - 1])));
    }
    return Page(out, None);
  }

  lemma AllIsListing(table: seq<Job>, keep: Job -> bool)
    requires DistinctNames(table)
    ensures NewestFirst(All(table, keep)) && multiset(All(table, keep)) == multiset(Filter(table, keep))
  {
    FilterDistinct(table, keep);
    SortSorts(Filter(table, keep));
  }

  /** Following the cursors to the end gives every matching job exactly once, newest first, and
      stops. */
  method Walk(table: seq<Job>, keep: Job -> bool, pageSize: int) returns (jobs: seq<Job>)
    requires DistinctNames(table)
    ensures NewestFirst(jobs) && multiset(jobs) == multiset(Filter(table, keep))
  {
    hide All, Listed, NewestFirst, DistinctNames, Filter;
    ghost var all := All(table, keep);
    AllIsListing(table, keep);
    var page := ListJobs(table, keep, None, pageSize);
    PageIsStretch(table, keep, 0, pageSize);
    jobs := page.jobs;
    while page.next.Some?
      invariant |jobs| <= |all| && jobs == all[..|jobs|]
      invariant page.next.Some? ==> 0 < |jobs| < |all| && page.next == CursorAt(all, |jobs|)
      invariant page.next.None? ==> |jobs| == |all|
      decreases |all| - |jobs|, page.next.Some?
    {
      PageIsStretch(table, keep, |jobs|, pageSize);
      page := ListJobs(table, keep, page.next, pageSize);
      assert all[..|jobs|] + page.jobs == all[..|jobs| + |page.jobs|];
      jobs := jobs + page.jobs;
    }
    assert jobs == all;
  }

  // Waiting tasks.

  function Take(jobs: seq<Job>, limit: int): seq<Job> {
    if limit > 0 && |jobs| > limit then jobs[..limit] else jobs
  }

  lemma TakesTheFirst(jobs: seq<Job>, limit: int)
    ensures Take(jobs, limit) <= jobs
    ensures |Take(jobs, limit)| == if 0 < limit < |jobs| then limit else |jobs|
  {
  }

  lemma {:induction false} FilterJoins(a: seq<Job>, b: seq<Job>, keep: Job -> bool)
    ensures Filter(a + b, keep) == Filter(a, keep) + Filter(b, keep)
    decreases |a|
  {
    if a == [] {
      assert a + b == b;
    } else {
      assert (a + b)[1..] == a[1..] + b;
      FilterJoins(a[1..], b, keep);
    }
  }

  /** The tasks taken from one page, until the limit is reached. */
  method TakeHandles(page: seq<Job>, wanted: Job -> bool, handles: seq<Job>, limit: int) returns (more: seq<Job>)
    requires limit > 0 ==> |handles| < limit
    ensures more == Take(handles + Filter(page, wanted), limit)
  {
    more := handles;
    assert page[0..] == page;
    var i := 0;
    while i < |page|
      invariant 0 <= i <= |page| && (limit > 0 ==> |more| < limit)
      invariant more + Filter(page[i..], wanted) == handles + Filter(page, wanted)
    {
      hide Filter;
      FilterNext(more, page, i, wanted);
      if wanted(page[i]) {
        more := more + [page[i]];
        if limit > 0 && |more| >= limit { return; }
      }
      i := i + 1;
    }
    assert more + [] == more;
  }

  /** What the search has after the first `upTo` jobs of the listing, and what it ends with if it
      stops there. */
  lemma SeenSoFar(all: seq<Job>, wanted: Job -> bool, seen: nat, upTo: nat, limit: int)
    requires seen <= upTo <= |all|
    ensures Filter(all[..seen], wanted) + Filter(all[seen..upTo], wanted) == Filter(all[..upTo], wanted)
    ensures Filter(all[..upTo], wanted) + Filter(all[upTo..], wanted) == Filter(all, wanted)
    ensures limit > 0 && |Filter(all[..upTo], wanted)| >= limit ==>
      Take(Filter(all[..upTo], wanted), limit) == Take(Filter(all, wanted), limit)
  {
    assert all[..upTo] == all[..seen] + all[seen..upTo];
    assert all == all[..upTo] + all[upTo..];
    FilterJoins(all[..seen], all[seen..upTo], wanted);
    FilterJoins(all[..upTo], all[upTo..], wanted);
  }

  /** The search takes the first `limit` matches of the listing, or all of them without a limit,
      whatever page sizes it asks for on the way. */
  method FindWaitingTasks(table: seq<Job>, keep: Job -> bool, wanted: Job -> bool, limit: int)
    returns (handles: seq<Job>)
    requires DistinctNames(table)
    ensures handles == Take(Filter(All(table, keep), wanted), limit)
  {
    hide All, Listed, DistinctNames;
    ghost var all := All(table, keep);
    handles := [];
    var token: Option<Cursor> := None;
    var remaining := limit;
    ghost var seen: nat := 0;
    while true
      invariant seen <= |all| && handles == Filter(all[..seen], wanted)
      invariant token == CursorAt(all, seen)
      invariant limit > 0 ==> remaining == limit - |handles| > 0
      invariant limit <= 0 ==> remaining <= 0
      decreases |all| - seen
    {
      hide Filter;
      var pageSize := if 0 < remaining < MAX_PAGE_SIZE then remaining else MAX_PAGE_SIZE;
      PageIsStretch(table, keep, seen, pageSize);
      var page := ListJobs(table, keep, token, pageSize);
      ghost var upTo := seen + |page.jobs|;
      assert page.jobs == all[seen..upTo];
      SeenSoFar(all, wanted, seen, upTo, limit);
      handles := TakeHandles(page.jobs, wanted, handles, limit);
      if limit > 0 && |handles| >= limit { return; }
      if page.next.None? {
        assert all[..upTo] == all;
        return;
      }
      token := page.next;
      seen := upTo;
      if remaining > 0 {
        remaining := limit - |handles|;
      }
    }
  }
}
