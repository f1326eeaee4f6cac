/**
 The job table (pkg/jobdb/runtime/sqlite/{runtime,lease,scheduler}.go): one row per job, and the
 transactions that insert, lease, renew, reschedule, complete, cancel and resume it.

 Times are integers in nanoseconds with a clock that is never negative; 0 is the zero time.
 Every function here is one transaction and takes the clock reading it works with.
 */
module JobTable {
  import opened Retry

  datatype JobKey = JobKey(tenant: string, job: string)

  datatype Row = Row(
    created: int,
    nextNeed: string,
    waitFor: seq<string>,
    availableAt: int,
    archivedAt: Option<int>,
    cancelRequested: bool,
    completionStatus: Option<string>,
    completionDetail: Option<string>,
    leaseId: Option<string>,
    leaseWorker: Option<string>,
    leaseExpires: Option<int>,
    alternateNeed: Option<string>,
    alternateAt: Option<int>)

  type Table = map<JobKey, Row>

  datatype Status = Ready | Active | PendingJobs | AwaitingFuture | CrashConcern | Completed | Cancelled

  const DEFAULT_LEASE_DURATION := 30_000_000_000

  function LeaseDuration(d: int): (r: int)
    ensures r > 0
  {
    if d <= 0 then DEFAULT_LEASE_DURATION else d
  }

  /** `validateLeaseRow` for callers that must name their worker. */
  predicate LeaseHolds(row: Row, id: string, worker: string, now: int) {
    && id != "" && worker != ""
    && row.archivedAt.None?
    && row.leaseId == Some(id)
    && row.leaseWorker == Some(worker)
    && row.leaseExpires.Some? && row.leaseExpires.value > now
  }

  predicate LeaseRuns(row: Row, now: int) {
    row.leaseId.Some? && row.leaseExpires.Some? && row.leaseExpires.value > now
  }

  /** A job waits only for jobs that exist and are not archived. */
  predicate DependenciesReady(table: Table, tenant: string, waitFor: seq<string>) {
    forall id :: id in waitFor && id != "" && JobKey(tenant, id) in table ==> table[JobKey(tenant, id)].archivedAt.Some?
  }

  function StatusOf(table: Table, key: JobKey, now: int): Status
    requires key in table
  {
    var row := table[key];
    if row.archivedAt.Some? then
      if row.cancelRequested || row.completionStatus == Some("cancelled") then Cancelled else Completed
    else if row.cancelRequested then Cancelled
    else if row.leaseId.Some? then
      if LeaseRuns(row, now) then Active else CrashConcern
    else if !DependenciesReady(table, key.tenant, row.waitFor) then PendingJobs
    else if row.availableAt != 0 && row.availableAt > now then AwaitingFuture
    else Ready
  }

  /** A fallback capability takes over once its time has come. */
  predicate AlternateFires(row: Row, now: int) {
    row.alternateNeed.Some? && row.alternateNeed.value != "" && row.alternateAt.Some? && row.alternateAt.value <= now
  }

  function EffectiveNeed(row: Row, now: int): string {
    if AlternateFires(row, now) then row.alternateNeed.value else row.nextNeed
  }

  // Acquiring a lease.

  /** The tests `acquireOneLease` makes on a candidate, without a metadata filter. */
  predicate CanPoll(table: Table, key: JobKey, tenant: string, caps: set<string>, now: int) {
    && key in table && key.tenant == tenant
    && var row := table[key];
       && row.archivedAt.None? && !row.cancelRequested
       && EffectiveNeed(row, now) in caps
       && !LeaseRuns(row, now)
       && DependenciesReady(table, key.tenant, row.waitFor)
       && !(row.availableAt != 0 && row.availableAt > now)
  }

  /** The tests `GetJobLease` makes: it goes by the status alone. */
  predicate CanGet(table: Table, key: JobKey, caps: set<string>, now: int) {
    && key in table
    && (StatusOf(table, key, now).Ready? || StatusOf(table, key, now).CrashConcern?)
    && EffectiveNeed(table[key], now) in caps
  }

  function Grant(row: Row, id: string, worker: string, duration: int, now: int): Row {
    row.(nextNeed := EffectiveNeed(row, now),
         leaseId := Some(id), leaseWorker := Some(worker), leaseExpires := Some(now + LeaseDuration(duration)),
         alternateNeed := if AlternateFires(row, now) then None else row.alternateNeed,
         alternateAt := if AlternateFires(row, now) then None else row.alternateAt)
  }

  // Transactions by lease id.

  /** The new expiry was computed at an earlier reading than the lease is checked at. */
  function KeptAlive(row: Row, duration: int, started: int): Row {
    row.(leaseExpires := Some(started + LeaseDuration(duration)))
  }

  function CompletionStatus(requested: string): string {
    if requested == "" || requested == "success" || requested == "succeeded" then "success" else requested
  }

  function Unleased(row: Row): Row {
    row.(leaseId := None, leaseWorker := None, leaseExpires := None)
  }

  function Archived(row: Row, requested: string, detail: string, now: int): Row {
    Unleased(row).(
      archivedAt := Some(now),
      completionStatus := Some(CompletionStatus(requested)),
      completionDetail := if detail == "" then None else Some(detail),
      cancelRequested := CompletionStatus(requested) == "cancelled" || row.cancelRequested,
      alternateNeed := None, alternateAt := None)
  }

  function NonEmpty(ids: seq<string>): seq<string> {
    if ids == [] then [] else (if ids[0] == "" then [] else [ids[0]]) + NonEmpty(ids[1..])
  }

  datatype Move = Move(need: string, waitFor: seq<string>, until: Option<int>, alternate: string, after: Option<int>)

  /** The checks a reschedule request passes before its transaction. */
  predicate MoveAllowed(m: Move) {
    && m.need != ""
    && !(m.after.Some? && m.after.value < 0)
    && !(m.alternate == "" && m.after.Some? && m.after.value > 0)
  }

  function Moved(row: Row, m: Move, now: int): Row {
    Unleased(row).(
      nextNeed := m.need, waitFor := NonEmpty(m.waitFor),
      availableAt := if m.until.Some? then m.until.value else now,
      alternateNeed := if m.alternate == "" then None else Some(m.alternate),
      alternateAt := if m.alternate == "" then None else Some(now + if m.after.Some? then m.after.value else 0))
  }

  // Transactions without a lease.

  function CancelledRow(row: Row, reason: string, now: int): Row {
    Unleased(row).(
      cancelRequested := true,
      archivedAt := if row.archivedAt.Some? then row.archivedAt else Some(now),
      completionStatus := if row.completionStatus.Some? then row.completionStatus else Some("cancelled"),
      completionDetail := Some(reason))
  }

  /** The guard on the row update that ends an external task wait. */
  predicate CanResume(row: Row, capability: string) {
    row.archivedAt.None? && row.nextNeed == capability
  }

  function Resumed(row: Row, need: string, now: int): Row {
    Unleased(row).(nextNeed := need, waitFor := [], availableAt := now, alternateNeed := None, alternateAt := None)
  }

  function Fresh(need: string, waitFor: seq<string>, availableAt: Option<int>, now: int): Row {
    Row(now, need, NonEmpty(waitFor), if availableAt.Some? then availableAt.value else now,
        None, false, None, None, None, None, None, None, None)
  }

  // What a transaction means for the next poll.

  /** A fallback capability takes a job over once: the grant spends it, and a grant under the
      first capability leaves it armed. */
  lemma FallbackIsSpentByItsGrant(row: Row, id: string, worker: string, duration: int, now: int, later: int)
    requires later >= now
    ensures
      var granted := Grant(row, id, worker, duration, now);
      && granted.nextNeed == EffectiveNeed(row, now)
      && (AlternateFires(row, now) ==> EffectiveNeed(granted, later) == granted.nextNeed == row.alternateNeed.value)
      && (!AlternateFires(row, now) ==> EffectiveNeed(granted, later) == EffectiveNeed(row, later))
  {
  }

  /** After a reschedule a worker gets the job exactly when its time has come, everything it
      waits for is done, and the worker offers the capability of the hour: the next need, or the
      fallback from its own time on. */
  lemma RescheduleHandsBack(table: Table, key: JobKey, id: string, worker: string, m: Move, now: nat,
      caps: set<string>, later: nat)
    requires key in table && LeaseHolds(table[key], id, worker, now) && !table[key].cancelRequested && MoveAllowed(m)
    requires later >= now
    requires m.until.Some? ==> m.until.value >= 0
    ensures
      var moved := table[key := Moved(table[key], m, now)];
      var after := if m.after.Some? then m.after.value else 0;
      CanPoll(moved, key, key.tenant, caps, later) <==>
        && (m.until.Some? ==> later >= m.until.value)
        && DependenciesReady(moved, key.tenant, m.waitFor)
        && (if m.alternate != "" && later >= now + after then m.alternate in caps else m.need in caps)
  {
    NonEmptyKeepsIds(m.waitFor);
  }

  lemma {:induction false} NonEmptyKeepsIds(ids: seq<string>)
    ensures forall id :: id in NonEmpty(ids) <==> id in ids && id != ""
    decreases |ids|
  {
    if ids == [] {
    } else {
      NonEmptyKeepsIds(ids[1..]);
      assert ids == [ids[0]] + ids[1..];
    }
  }

  /** A resumed job is leasable at once, by exactly the workers offering its resume capability. */
  lemma ResumeMakesReady(table: Table, key: JobKey, capability: string, need: string, now: nat, caps: set<string>,
      later: nat)
    requires key in table && CanResume(table[key], capability) && !table[key].cancelRequested && later >= now
    ensures
      var resumed := table[key := Resumed(table[key], need, now)];
      CanPoll(resumed, key, key.tenant, caps, later) <==> need in caps
  {
  }

  /** A job just inserted is leasable exactly by workers that offer its need, once the time it was
      submitted for has come, or at once without one, and everything it waits for is done. */
  lemma FreshIsLeasable(table: Table, key: JobKey, need: string, waitFor: seq<string>, availableAt: Option<int>,
      now: nat, caps: set<string>, later: nat)
    requires later >= now
    ensures
      var inserted := table[key := Fresh(need, waitFor, availableAt, now)];
      && (CanPoll(inserted, key, key.tenant, caps, later) <==>
            && need in caps && (availableAt.Some? ==> later >= availableAt.value)
            && DependenciesReady(inserted, key.tenant, waitFor))
      && inserted[key].created == now && inserted[key].nextNeed == need
      && inserted[key].archivedAt.None? && inserted[key].leaseId.None? && !inserted[key].cancelRequested
  {
    NonEmptyKeepsIds(waitFor);
  }

  /** A grant under an id of its own: the lease holds for that id and that worker, and for nobody
      else, until the time asked for has passed, or 30 seconds if none was; nothing else about the
      job changes but its need and its fallback. */
  lemma GrantedLeaseHolds(row: Row, id: string, worker: string, duration: int, now: int, other: string, who: string,
      later: int)
    requires row.archivedAt.None? && id != "" && worker != "" && later >= now
    ensures
      var granted := Grant(row, id, worker, duration, now);
      && (LeaseHolds(granted, other, who, later) <==>
            other == id && who == worker && later < now + if duration > 0 then duration else 30_000_000_000)
      && granted == row.(nextNeed := granted.nextNeed, alternateNeed := granted.alternateNeed,
                         alternateAt := granted.alternateAt, leaseId := Some(id), leaseWorker := Some(worker),
                         leaseExpires := granted.leaseExpires)
  {
  }

  /** A renewal only moves the end of the lease: as far as asked from when it was started. */
  lemma RenewedLeaseHolds(row: Row, id: string, worker: string, duration: int, started: int, now: int, later: int)
    requires LeaseHolds(row, id, worker, now)
    ensures
      var kept := KeptAlive(row, duration, started);
      && (LeaseHolds(kept, id, worker, later) <==> later < started + if duration > 0 then duration else 30_000_000_000)
      && kept == row.(leaseExpires := kept.leaseExpires)
  {
  }

  /** After a completion, a reschedule, a cancellation or a resume no lease holds for anybody. */
  lemma NoLeaseAfter(row: Row, status: string, detail: string, m: Move, reason: string, need: string, now: int,
      id: string, worker: string, later: int)
    ensures !LeaseHolds(Archived(row, status, detail, now), id, worker, later)
    ensures !LeaseHolds(Moved(row, m, now), id, worker, later)
    ensures !LeaseHolds(CancelledRow(row, reason, now), id, worker, later)
    ensures !LeaseHolds(Resumed(row, need, now), id, worker, later)
  {
  }

  /** A reschedule rewrites need, waits, time and fallback, and a resume the same; both leave alone who
      the job is, when it was created, and whether and how it has ended. */
  lemma MovesLeaveTheRest(row: Row, m: Move, need: string, now: int)
    ensures
      var r := Moved(row, m, now);
      r == row.(nextNeed := m.need, waitFor := r.waitFor, availableAt := r.availableAt, leaseId := None,
                leaseWorker := None, leaseExpires := None, alternateNeed := r.alternateNeed,
                alternateAt := r.alternateAt)
    ensures Resumed(row, need, now) ==
      row.(nextNeed := need, waitFor := [], availableAt := now, leaseId := None, leaseWorker := None,
           leaseExpires := None, alternateNeed := None, alternateAt := None)
  {
  }

  /** A job handed on to a capability can be resumed by exactly that one, once, and not after it has
      ended. */
  lemma ResumesOnce(row: Row, m: Move, capability: string, need: string, status: string, detail: string, now: int)
    ensures CanResume(Moved(row, m, now), capability) <==> row.archivedAt == None && capability == m.need
    ensures CanResume(Resumed(row, need, now), capability) <==> row.archivedAt == None && capability == need
    ensures !CanResume(Archived(row, status, detail, now), capability)
    ensures !CanResume(CancelledRow(row, status, now), capability)
  {
  }

  /** What a completion records: no status means success, as does "succeeded"; every other status,
      a failure in particular, is kept as it is, and only "cancelled" makes the job a cancelled one.
      The job is archived now, without fallback, and otherwise as it was. */
  lemma CompletionIsRecorded(table: Table, key: JobKey, requested: string, detail: string, now: int, later: int)
    requires key in table
    ensures
      var row := Archived(table[key], requested, detail, now);
      var recorded := if requested in {"", "success", "succeeded"} then "success" else requested;
      && row == table[key].(
           archivedAt := Some(now), completionStatus := Some(recorded), completionDetail := row.completionDetail,
           cancelRequested := row.cancelRequested, leaseId := None, leaseWorker := None, leaseExpires := None,
           alternateNeed := None, alternateAt := None)
      && (detail != "" ==> row.completionDetail == Some(detail)) && (detail == "" ==> row.completionDetail == None)
      && (row.cancelRequested <==> table[key].cancelRequested || requested == "cancelled")
      && StatusOf(table[key := row], key, later) ==
           if table[key].cancelRequested || requested == "cancelled" then Cancelled else Completed
  {
  }

  /** A cancelled job counts as cancelled for good, and keeps when and how it had been archived; the
      reason replaces any detail. */
  lemma CancellationIsRecorded(table: Table, key: JobKey, reason: string, now: int, later: int)
    requires key in table && (table[key].archivedAt.Some? <==> table[key].completionStatus.Some?)
    ensures
      var row := CancelledRow(table[key], reason, now);
      && StatusOf(table[key := row], key, later) == Cancelled && row.completionDetail == Some(reason)
      && (table[key].archivedAt.Some? ==>
            row.archivedAt == table[key].archivedAt && row.completionStatus == table[key].completionStatus)
      && (table[key].archivedAt.None? ==> row.archivedAt == Some(now) && row.completionStatus == Some("cancelled"))
      && row == table[key].(archivedAt := row.archivedAt, completionStatus := row.completionStatus,
                            completionDetail := row.completionDetail, cancelRequested := true,
                            leaseId := None, leaseWorker := None, leaseExpires := None)
  {
  }

  /** The status of a job that is not archived, in the order of what keeps it from being ready: a
      lease that runs or has run out, a job it waits for, a time that has not come. */
  lemma StatusOfOpenJob(table: Table, key: JobKey, now: nat)
    requires key in table && table[key].archivedAt.None? && !table[key].cancelRequested
    ensures
      var row := table[key];
      var status := StatusOf(table, key, now);
      && (status.Active? <==> exists id :: LeasedBy(row, id, now))
      && (status.CrashConcern? <==> row.leaseId.Some? && !status.Active?)
      && var blocked := exists id :: id in row.waitFor && Blocks(table, key.tenant, id);
         && (status.PendingJobs? <==> row.leaseId.None? && blocked)
         && (status.AwaitingFuture? <==> row.leaseId.None? && !blocked && now < row.availableAt)
         && (status.Ready? <==> row.leaseId.None? && !blocked && now >= row.availableAt)
  {
    var row := table[key];
    if LeaseRuns(row, now) { assert LeasedBy(row, row.leaseId.value, now); }
    if !DependenciesReady(table, key.tenant, row.waitFor) {
      var id :| id in row.waitFor && id != "" && JobKey(key.tenant, id) in table
        && table[JobKey(key.tenant, id)].archivedAt.None?;
      assert Blocks(table, key.tenant, id);
    }
  }

  /** The row's lease has this id and has not run out, whoever holds it. */
  predicate LeasedBy(row: Row, id: string, now: int) {
    row.leaseId == Some(id) && row.leaseExpires.Some? && now < row.leaseExpires.value
  }

  /** The job with this id exists and is not archived. */
  predicate Blocks(table: Table, tenant: string, id: string) {
    id != "" && JobKey(tenant, id) in table && table[JobKey(tenant, id)].archivedAt.None?
  }

  /** A reschedule is refused for three reasons only: no next need, a delay below zero, and a delay
      for a fallback that is not there. */
  lemma RefusedMoves(m: Move)
    ensures !MoveAllowed(m) <==>
      m.need == "" || exists d :: m.after == Some(d) && (d < 0 || (d > 0 && m.alternate == ""))
  {
    if m.after.Some? { assert m.after == Some(m.after.value); }
  }

  datatype Lease = Lease(key: JobKey, id: string, worker: string, capability: string, duration: int, expires: int)

  /** Byte order on identifiers. */
  predicate Before(a: string, b: string) {
    if b == [] then false
    else if a == [] then true
    else a[0] < b[0] || (a[0] == b[0] && Before(a[1..], b[1..]))
  }

  /** a is a beginning of b, or the first character in which they differ is smaller in a. */
  lemma {:induction false} BeforeIsByteOrder(a: string, b: string)
    ensures Before(a, b) <==> a != b && (a <= b || exists n: nat :: FirstDifference(a, b, n) && a[n] < b[n])
    decreases |a|
  {
    if a == [] || b == [] {
      assert [] <= b;
    } else if a[0] != b[0] {
      assert FirstDifference(a, b, 0);
    } else {
      BeforeIsByteOrder(a[1..], b[1..]);
      assert a == [a[0]] + a[1..] && b == [b[0]] + b[1..];
      forall n: nat ensures FirstDifference(a, b, n + 1) <==> FirstDifference(a[1..], b[1..], n) {
        DifferenceMoves(a, b, n);
      }
      if n: nat :| FirstDifference(a[1..], b[1..], n) && a[1..][n] < b[1..][n] {
        assert FirstDifference(a, b, n + 1) && a[n + 1] < b[n + 1];
      }
      if n: nat :| FirstDifference(a, b, n) && a[n] < b[n] {
        assert FirstDifference(a, b, (n - 1) + 1);
        assert a[1..][n - 1] == a[n] && b[1..][n - 1] == b[n];
      }
    }
  }

  lemma DifferenceMoves(a: string, b: string, n: nat)
    requires a != [] && b != [] && a[0] == b[0]
    ensures FirstDifference(a, b, n + 1) <==> FirstDifference(a[1..], b[1..], n)
  {
    if n + 1 < |a| && n + 1 < |b| {
      assert a[..n + 1] == [a[0]] + a[1..][..n] && b[..n + 1] == [b[0]] + b[1..][..n];
      assert a[1..][..n] == a[..n + 1][1..] && b[1..][..n] == b[..n + 1][1..];
    }
  }

  predicate FirstDifference(a: string, b: string, n: nat) {
    n < |a| && n < |b| && a[..n] == b[..n] && a[n] != b[n]
  }

  /** What the candidate query returns: every job that is not archived, oldest first. */
  ghost predicate Candidates(table: Table, keys: seq<JobKey>) {
    && (forall key :: key in keys <==> key in table && table[key].archivedAt.None?)
    && (forall i, j :: 0 <= i < j < |keys| ==>
          && keys[i] in table && keys[j] in table
          && (|| table[keys[i]].created < table[keys[j]].created
              || (table[keys[i]].created == table[keys[j]].created && !Before(keys[j].job, keys[i].job))))
  }

  class Runtime {
    var table: Table

    constructor ()
      ensures table == map[]
    {
      table := map[];
    }

    method InsertJobRecord(key: JobKey, need: string, waitFor: seq<string>, availableAt: Option<int>, now: nat)
      returns (ok: bool)
      modifies this
      ensures ok <==> key !in old(table)
      ensures table == if ok then old(table)[key := Fresh(need, waitFor, availableAt, now)] else old(table)
    {
      ok := key !in table;
      if ok {
        table := table[key := Fresh(need, waitFor, availableAt, now)];
      }
    }

    method DependenciesAreReady(tenant: string, waitFor: seq<string>) returns (ready: bool)
      ensures ready <==> DependenciesReady(table, tenant, waitFor)
    {
      for i := 0 to |waitFor|
        invariant forall k :: 0 <= k < i && waitFor[k] != "" && JobKey(tenant, waitFor[k]) in table
                    ==> table[JobKey(tenant, waitFor[k])].archivedAt.Some?
      {
        var id := waitFor[i];
        if id == "" || JobKey(tenant, id) !in table {
          continue;
        }
        if table[JobKey(tenant, id)].archivedAt.None? { return false; }
      }
      return true;
    }

    /** Leases the oldest job a polling worker may have. */
    method AcquireOneLease(candidates: seq<JobKey>, tenant: string, caps: set<string>, worker: string, duration: int,
        id: string, now: nat)
      returns (lease: Option<Lease>)
      requires Candidates(table, candidates)
      modifies this
      ensures lease.None? ==> table == old(table) && forall key :: !CanPoll(table, key, tenant, caps, now)
      ensures lease.Some? ==>
        && var l := lease.value;
           && CanPoll(old(table), l.key, tenant, caps, now)
           && table == old(table)[l.key := Grant(old(table)[l.key], id, worker, duration, now)]
           && l == Lease(l.key, id, worker, table[l.key].nextNeed, LeaseDuration(duration),
                         now + LeaseDuration(duration))
           && (exists i :: 0 <= i < |candidates| && candidates[i] == l.key
                && forall j :: 0 <= j < i ==> !CanPoll(old(table), candidates[j], tenant, caps, now))
           && forall key :: CanPoll(old(table), key, tenant, caps, now) ==>
                old(table)[l.key].created <= old(table)[key].created
    {
      var i := 0;
      while i < |candidates|
        invariant 0 <= i <= |candidates| && table == old(table)
        invariant forall j :: 0 <= j < i ==> !CanPoll(table, candidates[j], tenant, caps, now)
      {
        var key := candidates[i];
        var row := table[key];
        i := i + 1;
        if key.tenant != tenant || row.cancelRequested { continue; }
        var need := EffectiveNeed(row, now);
        if need !in caps { continue; }
        if LeaseRuns(row, now) { continue; }
        var ready := DependenciesAreReady(key.tenant, row.waitFor);
        if !ready { continue; }
        if row.availableAt != 0 && row.availableAt > now { continue; }
        assert candidates[i - 1] == key;
        table := table[key := Grant(row, id, worker, duration, now)];
        return Some(Lease(key, id, worker, need, LeaseDuration(duration), now + LeaseDuration(duration)));
      }
      assert forall key :: key in candidates ==> !CanPoll(table, key, tenant, caps, now);
      return None;
    }

    method GetJobLease(key: JobKey, caps: set<string>, worker: string, duration: int, id: string, now: nat)
      returns (lease: Option<Lease>)
      modifies this
      ensures lease.Some? <==> CanGet(old(table), key, caps, now)
      ensures lease.None? ==> table == old(table)
      ensures lease.Some? ==>
        && table == old(table)[key := Grant(old(table)[key], id, worker, duration, now)]
        && lease.value == Lease(key, id, worker, table[key].nextNeed, LeaseDuration(duration),
                                now + LeaseDuration(duration))
    {
      if key !in table { return None; }
      var row := table[key];
      var status := StatusOf(table, key, now);
      if status != Ready && status != CrashConcern { return None; }
      var need := EffectiveNeed(row, now);
      if need !in caps { return None; }
      table := table[key := Grant(row, id, worker, duration, now)];
      return Some(Lease(key, id, worker, need, LeaseDuration(duration), now + LeaseDuration(duration)));
    }

    method KeepAliveLeaseByID(key: JobKey, id: string, worker: string, duration: int, started: nat, now: nat)
      returns (expires: Option<int>)
      modifies this
      ensures expires.Some? <==> key in old(table) && LeaseHolds(old(table)[key], id, worker, now)
      ensures expires.None? ==> table == old(table)
      ensures expires.Some? ==>
        table == old(table)[key := KeptAlive(old(table)[key], duration, started)] && table[key].leaseExpires == expires
    {
      if key !in table || !LeaseHolds(table[key], id, worker, now) { return None; }
      var row := KeptAlive(table[key], duration, started);
      table := table[key := row];
      return row.leaseExpires;
    }

    /** The second of the two transactions of a completion; the first saves the chapter. */
    method ArchiveByLease(key: JobKey, id: string, worker: string, status: string, detail: string, now: nat)
      returns (ok: bool)
      modifies this
      ensures ok <==> key in old(table) && LeaseHolds(old(table)[key], id, worker, now)
      ensures table == if ok then old(table)[key := Archived(old(table)[key], status, detail, now)] else old(table)
    {
      ok := key in table && LeaseHolds(table[key], id, worker, now);
      if ok {
        table := table[key := Archived(table[key], status, detail, now)];
      }
    }

    method RescheduleJobWithLeaseByID(key: JobKey, id: string, worker: string, m: Move, now: nat) returns (ok: bool)
      modifies this
      ensures ok <==> MoveAllowed(m) && key in old(table) && LeaseHolds(old(table)[key], id, worker, now)
      ensures table == if ok then old(table)[key := Moved(old(table)[key], m, now)] else old(table)
    {
      ok := MoveAllowed(m) && key in table && LeaseHolds(table[key], id, worker, now);
      if ok {
        table := table[key := Moved(table[key], m, now)];
      }
    }

    method CancelJob(key: JobKey, reason: string, now: nat) returns (ok: bool)
      modifies this
      ensures ok <==> key in old(table)
      ensures table == if ok then old(table)[key := CancelledRow(old(table)[key], reason, now)] else old(table)
    {
      ok := key in table;
      if ok {
        table := table[key := CancelledRow(table[key], reason, now)];
      }
    }

    /** The guarded update that ends an external task wait. */
    method ResumeIfWaiting(key: JobKey, capability: string, need: string, now: nat) returns (ok: bool)
      modifies this
      ensures ok <==> key in old(table) && CanResume(old(table)[key], capability)
      ensures table == if ok then old(table)[key := Resumed(old(table)[key], need, now)] else old(table)
    {
      ok := key in table && CanResume(table[key], capability);
      if ok {
        table := table[key := Resumed(table[key], need, now)];
      }
    }
  }
}
