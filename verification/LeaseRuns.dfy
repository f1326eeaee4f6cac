/**
 Whole runs of the job table: many workers, one non-decreasing clock, a fresh id for every lease,
 and chapter writes that are separate steps from row writes.
 */
module LeaseRuns {
  import opened Retry
  import opened Chapters
  import opened JobTable

  datatype Event =
    | Insert(key: JobKey, need: string, waitFor: seq<string>, availableAt: Option<int>)
    | Poll(key: JobKey, tenant: string, caps: set<string>, worker: string, duration: int, id: string)
    | Get(key: JobKey, caps: set<string>, worker: string, duration: int, id: string)
    | KeepAlive(key: JobKey, id: string, worker: string, duration: int, started: int)
    | SaveOutcome(key: JobKey, id: string, worker: string, ordinal: nat, chapter: Chapter)
    | Archive(
        key: JobKey, id: string, worker: string, ordinal: nat, chapter: Chapter, status: string, detail: string)
    | Reschedule(key: JobKey, id: string, worker: string, move: Move)
    | Cancel(key: JobKey, reason: string)
    | Resume(key: JobKey, capability: string, need: string)
    | Append(key: JobKey, chapter: Chapter)

  datatype Granted = Granted(key: JobKey, worker: string, capability: string)

  /** A completion between its two transactions: the chapter it has saved, and where. */
  datatype Completion = Completion(key: JobKey, id: string, worker: string, ordinal: nat, chapter: Chapter)

  /** `issued` are the leases ever granted.  `saved` are the completions whose chapter step
      succeeded: only they go on to the row step, and a crash leaves them unfinished. */
  datatype World = World(
    table: Table,
    logs: map<JobKey, seq<Chapter>>,
    now: nat,
    issued: map<string, Granted>,
    saved: set<Completion>,
    completed: map<JobKey, Completion>)

  const EMPTY := World(map[], map[], 0, map[], {}, map[])

  function LogOf(w: World, key: JobKey): seq<Chapter> {
    if key in w.logs then w.logs[key] else []
  }

  /** `ensureCompletionChapter`: a live lease, and a job outcome that is there already or next. */
  predicate OutcomeFits(w: World, e: Event, at: nat)
    requires e.SaveOutcome? && e.key in w.table
  {
    && e.chapter.JobOutcome?
    && LeaseHolds(w.table[e.key], e.id, e.worker, at)
    && (if e.ordinal < |LogOf(w, e.key)| then LogOf(w, e.key)[e.ordinal] == e.chapter
        else e.ordinal == |LogOf(w, e.key)|)
  }

  predicate Accepted(w: World, e: Event, at: nat) {
    && at >= w.now
    && match e
       case Insert(key, _, _, _) => key !in w.table
       case Poll(key, tenant, caps, worker, _, id) =>
         id != "" && id !in w.issued && worker != "" && CanPoll(w.table, key, tenant, caps, at)
       case Get(key, caps, worker, _, id) =>
         id != "" && id !in w.issued && worker != "" && CanGet(w.table, key, caps, at)
       case KeepAlive(key, id, worker, _, started) =>
         started <= at && key in w.table && LeaseHolds(w.table[key], id, worker, at)
       case SaveOutcome(key, id, worker, ordinal, chapter) => key in w.table && OutcomeFits(w, e, at)
       case Archive(key, id, worker, ordinal, chapter, _, _) =>
         && Completion(key, id, worker, ordinal, chapter) in w.saved
         && key in w.table && LeaseHolds(w.table[key], id, worker, at)
       case Reschedule(key, id, worker, move) =>
         MoveAllowed(move) && key in w.table && LeaseHolds(w.table[key], id, worker, at)
       case Cancel(key, _) => key in w.table
       case Resume(key, capability, _) => key in w.table && CanResume(w.table[key], capability)
       case Append(_, _) => true
  }

  /** The row an accepted event leaves behind. */
  function RowAfter(w: World, e: Event, at: nat): Row
    requires Accepted(w, e, at) && !e.Append?
  {
    match e
    case Insert(_, need, waitFor, availableAt) => Fresh(need, waitFor, availableAt, at)
    case Poll(key, _, _, worker, duration, id) => Grant(w.table[key], id, worker, duration, at)
    case Get(key, _, worker, duration, id) => Grant(w.table[key], id, worker, duration, at)
    case KeepAlive(key, _, _, duration, started) => KeptAlive(w.table[key], duration, started)
    case SaveOutcome(key, _, _, _, _) => w.table[key]
    case Archive(key, _, _, _, _, status, detail) => Archived(w.table[key], status, detail, at)
    case Reschedule(key, _, _, move) => Moved(w.table[key], move, at)
    case Cancel(key, reason) => CancelledRow(w.table[key], reason, at)
    case Resume(key, _, need) => Resumed(w.table[key], need, at)
  }

  function Completing(e: Event): Completion
    requires e.SaveOutcome? || e.Archive?
  {
    Completion(e.key, e.id, e.worker, e.ordinal, e.chapter)
  }

  predicate Grants(e: Event) {
    e.Poll? || e.Get?
  }

  function LogsAfter(w: World, e: Event): map<JobKey, seq<Chapter>> {
    match e
    case Append(key, chapter) => w.logs[key := LogOf(w, key) + [chapter]]
    case SaveOutcome(key, _, _, ordinal, chapter) =>
      if ordinal == |LogOf(w, key)| then w.logs[key := LogOf(w, key) + [chapter]] else w.logs
    case _ => w.logs
  }

  function Step(w: World, e: Event, at: nat): World
    requires Accepted(w, e, at)
  {
    var table := if e.Append? then w.table else w.table[e.key := RowAfter(w, e, at)];
    World(
      table,
      LogsAfter(w, e),
      at,
      if Grants(e) then w.issued[e.id := Granted(e.key, e.worker, table[e.key].nextNeed)] else w.issued,
      if e.SaveOutcome? then w.saved + {Completing(e)} else w.saved,
      if e.Archive? then w.completed[e.key := Completing(e)] else w.completed)
  }

  /** An event that is refused changes nothing. */
  function Next(w: World, e: Event, at: nat): World {
    if Accepted(w, e, at) then Step(w, e, at) else w
  }

  function Run(w: World, events: seq<(Event, nat)>): World
    decreases |events|
  {
    if events == [] then w else Run(Next(w, events[0].0, events[0].1), events[1..])
  }

  /** Saving a completion's chapter succeeds exactly under a running lease of that job and worker, for a
      job outcome that stands at its ordinal already or is the next chapter; the job is then archived
      with it for as long as the lease runs. */
  lemma CompletionGoesThrough(w: World, key: JobKey, id: string, worker: string, ordinal: nat, ch: Chapter, at: nat,
      status: string, detail: string, later: nat)
    requires at >= w.now && later >= at
    ensures
      var save := SaveOutcome(key, id, worker, ordinal, ch);
      var log := if key in w.logs then w.logs[key] else [];
      && (Accepted(w, save, at) <==>
            && key in w.table && LeaseHolds(w.table[key], id, worker, at) && ch.JobOutcome?
            && ordinal <= |log| && (ordinal < |log| ==> log[ordinal] == ch))
      && (Accepted(w, save, at) ==>
            var saved := Step(w, save, at);
            && saved.table == w.table && saved.now == at
            && saved.logs == w.logs[key := if ordinal == |log| then log + [ch] else log]
            && (Accepted(saved, Archive(key, id, worker, ordinal, ch, status, detail), later) <==>
                  LeaseHolds(w.table[key], id, worker, later)))
  {
  }

  // What every reachable world keeps.

  ghost predicate RowKept(w: World, key: JobKey)
    requires key in w.table
  {
    var row := w.table[key];
    && (row.archivedAt.Some? <==> row.completionStatus.Some?)
    && (row.archivedAt.Some? ==> row.leaseId.None?)
    && (row.cancelRequested ==> row.archivedAt.Some?)
    && (row.leaseId.Some? ==>
          && row.leaseExpires.Some? && row.leaseWorker.Some? && row.leaseId.value in w.issued
          && w.issued[row.leaseId.value] == Granted(key, row.leaseWorker.value, row.nextNeed))
    && (row.archivedAt.Some? && row.completionStatus != Some("cancelled") ==> key in w.completed)
  }

  /** The log holds the completion's own chapter at its own ordinal, and it is a job outcome. */
  ghost predicate HoldsOutcome(log: seq<Chapter>, c: Completion) {
    c.ordinal < |log| && log[c.ordinal] == c.chapter && c.chapter.JobOutcome?
  }

  ghost predicate Kept(w: World) {
    && (forall key :: key in w.table ==> RowKept(w, key))
    && (forall s :: s in w.saved ==> HoldsOutcome(LogOf(w, s.key), s))
    && (forall key :: key in w.completed ==>
          w.completed[key].key == key && HoldsOutcome(LogOf(w, key), w.completed[key]))
  }

  lemma LogsGrow(w: World, e: Event, at: nat, key: JobKey)
    requires Accepted(w, e, at)
    ensures LogOf(w, key) <= LogOf(Step(w, e, at), key)
  {
  }

  lemma StepKeepsRow(w: World, e: Event, at: nat)
    requires Kept(w) && Accepted(w, e, at) && !e.Append?
    ensures RowKept(Step(w, e, at), e.key)
  {
    if !e.Insert? { assert RowKept(w, e.key); }
  }

  lemma StepKeeps(w: World, e: Event, at: nat)
    requires Kept(w) && Accepted(w, e, at)
    ensures Kept(Step(w, e, at))
  {
    var w' := Step(w, e, at);
    if !e.Append? { StepKeepsRow(w, e, at); }
    forall key | key in w'.table && (e.Append? || key != e.key) ensures RowKept(w', key) {
      assert RowKept(w, key);
    }
    forall s | s in w'.saved ensures HoldsOutcome(LogOf(w', s.key), s) {
      LogsGrow(w, e, at, s.key);
    }
    forall key | key in w'.completed
      ensures w'.completed[key].key == key && HoldsOutcome(LogOf(w', key), w'.completed[key])
    {
      LogsGrow(w, e, at, key);
    }
  }

  lemma {:induction false} RunKeeps(w: World, events: seq<(Event, nat)>)
    requires Kept(w)
    ensures Kept(Run(w, events))
    decreases |events|
  {
    if events == [] {
    } else {
      if Accepted(w, events[0].0, events[0].1) {
        StepKeeps(w, events[0].0, events[0].1);
      }
      RunKeeps(Next(w, events[0].0, events[0].1), events[1..]);
    }
  }

  /** In every reachable world a held lease was granted for this job and this worker, and its
      capability is still the row's. */
  lemma HeldLeaseKeepsItsCapability(events: seq<(Event, nat)>, key: JobKey, id: string, worker: string)
    ensures
      var w := Run(EMPTY, events);
      key in w.table && LeaseHolds(w.table[key], id, worker, w.now) ==>
        id in w.issued && w.issued[id] == Granted(key, worker, w.table[key].nextNeed)
  {
    RunKeeps(EMPTY, events);
    var w := Run(EMPTY, events);
    if key in w.table { assert RowKept(w, key); }
  }

  // Dead leases stay dead.

  ghost predicate Dead(w: World, key: JobKey, id: string, worker: string) {
    key in w.table && id in w.issued && !LeaseHolds(w.table[key], id, worker, w.now)
  }

  lemma StepKeepsDead(w: World, e: Event, at: nat, key: JobKey, id: string, worker: string)
    requires Dead(w, key, id, worker) && Accepted(w, e, at)
    ensures Dead(Step(w, e, at), key, id, worker)
  {
  }

  lemma {:induction false} DeadLeasesStayDead(w: World, events: seq<(Event, nat)>, key: JobKey, id: string,
      worker: string)
    requires Dead(w, key, id, worker)
    ensures Dead(Run(w, events), key, id, worker)
    decreases |events|
  {
    if events == [] {
    } else {
      if Accepted(w, events[0].0, events[0].1) {
        StepKeepsDead(w, events[0].0, events[0].1, key, id, worker);
      }
      DeadLeasesStayDead(Next(w, events[0].0, events[0].1), events[1..], key, id, worker);
    }
  }

  /** A request made under a lease. */
  predicate UnderLease(e: Event, key: JobKey, id: string) {
    (e.KeepAlive? || e.SaveOutcome? || e.Archive? || e.Reschedule?) && e.key == key && e.id == id
  }

  lemma DeadLeaseIsRefused(w: World, key: JobKey, id: string, e: Event, at: nat)
    requires UnderLease(e, key, id) && Dead(w, key, id, e.worker)
    ensures !Accepted(w, e, at)
  {
  }

  /** Once a second lease is granted for a job, nothing under the first is ever accepted again. */
  lemma SecondLeaseEndsTheFirst(before: seq<(Event, nat)>, grant: Event, at: nat, after: seq<(Event, nat)>,
                                first: string, late: Event, lateAt: nat)
    requires
      var w := Run(EMPTY, before);
      first in w.issued && Grants(grant) && Accepted(w, grant, at) && UnderLease(late, grant.key, first)
    ensures !Accepted(Run(Step(Run(EMPTY, before), grant, at), after), late, lateAt)
  {
    var w := Step(Run(EMPTY, before), grant, at);
    assert Dead(w, grant.key, first, late.worker);
    DeadLeasesStayDead(w, after, grant.key, first, late.worker);
    DeadLeaseIsRefused(Run(w, after), grant.key, first, late, lateAt);
  }

  // Archival is absorbing.

  ghost predicate StillArchived(key: JobKey, w: World, w': World)
    requires key in w.table && w.table[key].archivedAt.Some?
  {
    && key in w'.table
    && w'.table[key].archivedAt == w.table[key].archivedAt
    && w'.table[key].completionStatus == w.table[key].completionStatus
    && w'.table[key].leaseId.None?
    && (key in w.completed <==> key in w'.completed)
    && (key in w.completed ==> w'.completed[key] == w.completed[key])
    && (StatusOf(w.table, key, w.now) == Cancelled ==> StatusOf(w'.table, key, w'.now) == Cancelled)
    && (StatusOf(w'.table, key, w'.now) == Cancelled || StatusOf(w'.table, key, w'.now) == Completed)
  }

  lemma StepKeepsArchived(w: World, e: Event, at: nat, key: JobKey)
    requires Kept(w) && Accepted(w, e, at) && key in w.table && w.table[key].archivedAt.Some?
    ensures StillArchived(key, w, Step(w, e, at))
  {
    assert RowKept(w, key);
  }

  lemma {:induction false} ArchivedForever(w: World, events: seq<(Event, nat)>, key: JobKey)
    requires Kept(w) && key in w.table && w.table[key].archivedAt.Some?
    ensures StillArchived(key, w, Run(w, events))
    decreases |events|
  {
    assert RowKept(w, key);
    if events == [] {
    } else {
      var w' := Next(w, events[0].0, events[0].1);
      if Accepted(w, events[0].0, events[0].1) {
        StepKeeps(w, events[0].0, events[0].1);
        StepKeepsArchived(w, events[0].0, events[0].1, key);
      }
      ArchivedForever(w', events[1..], key);
    }
  }

  /** In every run an archived job keeps its archive time and completion status, never holds a
      lease again, may only turn from completed to cancelled, and, if a lease completed it, has
      its recorded outcome. */
  lemma ArchivalIsAbsorbing(before: seq<(Event, nat)>, after: seq<(Event, nat)>, key: JobKey)
    requires key in Run(EMPTY, before).table && Run(EMPTY, before).table[key].archivedAt.Some?
    ensures
      var w := Run(EMPTY, before);
      var w' := Run(w, after);
      && w.table[key].completionStatus.Some? && w.table[key].leaseId.None?
      && StillArchived(key, w, w')
      && (key in w.completed ==> HoldsOutcome(LogOf(w', key), w.completed[key]))
      && (w.table[key].completionStatus != Some("cancelled") ==> key in w.completed)
  {
    var w := Run(EMPTY, before);
    RunKeeps(EMPTY, before);
    assert RowKept(w, key);
    ArchivedForever(w, after, key);
    RunKeeps(w, after);
    assert RowKept(Run(w, after), key);
  }

  // The two lease paths.

  /** A crashed lease hides a dependency or an availability time from `GetJobLease`. */
  ghost predicate Hidden(table: Table, key: JobKey, now: int)
    requires key in table
  {
    && StatusOf(table, key, now).CrashConcern?
    && !(DependenciesReady(table, key.tenant, table[key].waitFor)
         && !(table[key].availableAt != 0 && table[key].availableAt > now))
  }

  /** On any table the two paths differ on a job exactly when its crashed lease hides something. */
  lemma PathsAgreeUnlessHidden(table: Table, key: JobKey, caps: set<string>, now: int)
    requires key in table && EffectiveNeed(table[key], now) in caps
    ensures CanGet(table, key, caps, now) == CanPoll(table, key, key.tenant, caps, now) <==> !Hidden(table, key, now)
  {
  }

  /** The ids a lease's job waited for were all archived or missing when it was granted. */
  ghost predicate LeasedReady(w: World) {
    forall key :: key in w.table && w.table[key].archivedAt.None? && w.table[key].leaseId.Some? ==>
      DependenciesReady(w.table, key.tenant, w.table[key].waitFor) && w.table[key].availableAt <= w.now
  }

  ghost predicate NotAwaited(table: Table, key: JobKey) {
    forall other :: other in table && other.tenant == key.tenant ==> key.job !in table[other].waitFor
  }

  /** No job is inserted under an id that some row already waits for. */
  ghost predicate NeverAwaitedFirst(w: World, events: seq<(Event, nat)>)
    decreases |events|
  {
    events == [] ||
    (&& (events[0].0.Insert? && Accepted(w, events[0].0, events[0].1) ==> NotAwaited(w.table, events[0].0.key))
     && NeverAwaitedFirst(Next(w, events[0].0, events[0].1), events[1..]))
  }

  lemma StepKeepsReady(w: World, e: Event, at: nat)
    requires Kept(w) && LeasedReady(w) && Accepted(w, e, at) && (e.Insert? ==> NotAwaited(w.table, e.key))
    ensures LeasedReady(Step(w, e, at))
  {
    var w' := Step(w, e, at);
    forall key | key in w'.table && w'.table[key].archivedAt.None? && w'.table[key].leaseId.Some?
      ensures DependenciesReady(w'.table, key.tenant, w'.table[key].waitFor) && w'.table[key].availableAt <= w'.now
    {
      LeasedRowWasReady(w, e, at, key);
    }
  }

  lemma LeasedRowWasReady(w: World, e: Event, at: nat, key: JobKey)
    requires Kept(w) && LeasedReady(w) && Accepted(w, e, at) && (e.Insert? ==> NotAwaited(w.table, e.key))
    requires key in Step(w, e, at).table && Step(w, e, at).table[key].archivedAt.None?
    requires Step(w, e, at).table[key].leaseId.Some?
    ensures
      var w' := Step(w, e, at);
      DependenciesReady(w'.table, key.tenant, w'.table[key].waitFor) && w'.table[key].availableAt <= w'.now
  {
    var w' := Step(w, e, at);
    assert key in w.table && w.table[key].archivedAt.None? && w'.table[key].waitFor == w.table[key].waitFor;
    assert RowKept(w, key);
    assert DependenciesReady(w.table, key.tenant, w.table[key].waitFor) && w.table[key].availableAt <= at;
    forall id | id in w'.table[key].waitFor && id != "" && JobKey(key.tenant, id) in w'.table
      ensures w'.table[JobKey(key.tenant, id)].archivedAt.Some?
    {
      var awaited := JobKey(key.tenant, id);
      assert awaited in w.table && w.table[awaited].archivedAt.Some?;
      StepKeepsArchived(w, e, at, awaited);
    }
  }

  lemma {:induction false} RunKeepsReady(w: World, events: seq<(Event, nat)>)
    requires Kept(w) && LeasedReady(w) && NeverAwaitedFirst(w, events)
    ensures LeasedReady(Run(w, events))
    decreases |events|
  {
    if events == [] {
    } else {
      if Accepted(w, events[0].0, events[0].1) {
        StepKeeps(w, events[0].0, events[0].1);
        StepKeepsReady(w, events[0].0, events[0].1);
      }
      RunKeepsReady(Next(w, events[0].0, events[0].1), events[1..]);
    }
  }

  /** In every reachable world `GetJobLease` may lease exactly the jobs that `PollWork` may. */
  lemma LeasePathsAgree(events: seq<(Event, nat)>, key: JobKey, caps: set<string>, at: nat)
    requires NeverAwaitedFirst(EMPTY, events) && at >= Run(EMPTY, events).now
    ensures
      var table := Run(EMPTY, events).table;
      CanGet(table, key, caps, at) <==> CanPoll(table, key, key.tenant, caps, at)
  {
    RunKeeps(EMPTY, events);
    RunKeepsReady(EMPTY, events);
    var w := Run(EMPTY, events);
    if key in w.table {
      assert RowKept(w, key);
    }
  }

  /** Without that assumption they part: a job whose wait names an id nobody has used is leased
      and crashes, then the id is inserted; the targeted path still leases the job. */
  lemma PathsPartWhenAwaitedIdAppears()
    ensures exists events: seq<(Event, nat)>, key: JobKey, caps: set<string>, at: nat ::
      && at >= Run(EMPTY, events).now
      && CanGet(Run(EMPTY, events).table, key, caps, at)
      && !CanPoll(Run(EMPTY, events).table, key, key.tenant, caps, at)
  {
    var a, b := JobKey("t", "a"), JobKey("t", "b");
    var e0 := (Insert(a, "n", ["b"], None), 1);
    var e1 := (Get(a, {"n"}, "w", 1, "L"), 1);
    var e2 := (Insert(b, "n", [], None), 1);
    var w1 := Next(EMPTY, e0.0, e0.1);
    assert NonEmpty(["b"]) == ["b"];
    assert w1.table[a] == Fresh("n", ["b"], None, 1);
    var w2 := Next(w1, e1.0, e1.1);
    assert CanGet(w1.table, a, {"n"}, 1);
    assert w2.table[a] == Grant(w1.table[a], "L", "w", 1, 1);
    var w3 := Next(w2, e2.0, e2.1);
    assert b in w3.table && w3.table[b].archivedAt.None?;
    var events := [e0, e1, e2];
    assert events[1..] == [e1, e2] && events[1..][1..] == [e2];
    assert Run(w1, [e1, e2]) == Run(w2, [e2]) by { assert [e1, e2][1..] == [e2]; }
    assert Run(w2, [e2]) == Run(w3, []) by { assert [e2][1..] == []; }
    assert Run(EMPTY, events) == w3;
    assert "b" in w3.table[a].waitFor;
    assert CanGet(w3.table, a, {"n"}, 2);
    assert !CanPoll(w3.table, a, "t", {"n"}, 2);
  }

  // The object and the runs.

  lemma {:induction false} RunExtends(w: World, events: seq<(Event, nat)>, e: Event, at: nat)
    ensures Run(w, events + [(e, at)]) == Next(Run(w, events), e, at)
    decreases |events|
  {
    if events == [] {
      assert [(e, at)][1..] == [];
      assert Run(Next(w, e, at), []) == Next(w, e, at);
      assert events + [(e, at)] == [(e, at)];
    } else {
      assert (events + [(e, at)])[1..] == events[1..] + [(e, at)];
      RunExtends(Next(w, events[0].0, events[0].1), events[1..], e, at);
    }
  }

  /** What the callers of the runtime see to: the clock does not go back, a lease id is new, an
      expiry is computed before it is stored, and a lease is completed after its chapter is saved. */
  ghost predicate InOrder(w: World, e: Event, at: nat) {
    && at >= w.now
    && (Grants(e) ==> e.id != "" && e.id !in w.issued && e.worker != "")
    && (e.KeepAlive? ==> 0 <= e.started <= at)
    && (e.Archive? ==> Completing(e) in w.saved)
  }

  /** A runtime object under any sequence of calls.  `history` is the run they amount to, so the
      object's table is always that of a reachable world. */
  class Session {
    const runtime: Runtime
    ghost var history: seq<(Event, nat)>

    ghost predicate Valid()
      reads this, runtime
    {
      runtime.table == Run(EMPTY, history).table
    }

    constructor ()
      ensures Valid() && fresh(runtime) && history == []
    {
      runtime := new Runtime();
      history := [];
    }

    ghost method Remember(e: Event, at: nat)
      requires runtime.table == Next(Run(EMPTY, history), e, at).table
      modifies this
      ensures Valid() && history == old(history) + [(e, at)]
    {
      RunExtends(EMPTY, history, e, at);
      history := history + [(e, at)];
    }

    /** Any call but a poll, whose job the runtime picks itself.  Chapters are saved elsewhere. */
    method Perform(e: Event, at: nat) returns (ok: bool)
      requires Valid() && !e.Poll? && InOrder(Run(EMPTY, history), e, at)
      modifies this, runtime
      ensures Valid() && history == old(history) + [(e, at)]
      ensures !e.SaveOutcome? ==> (ok <==> Accepted(Run(EMPTY, old(history)), e, at))
    {
      hide Run, StatusOf, Moved, Resumed, Grant, CanPoll, CanGet, LeaseHolds;
      match e {
        case Insert(key, need, waitFor, availableAt) =>
          ok := runtime.InsertJobRecord(key, need, waitFor, availableAt, at);
        case Get(key, caps, worker, duration, id) =>
          var lease := runtime.GetJobLease(key, caps, worker, duration, id, at);
          ok := lease.Some?;
        case KeepAlive(key, id, worker, duration, started) =>
          var expires := runtime.KeepAliveLeaseByID(key, id, worker, duration, started, at);
          ok := expires.Some?;
        case Archive(key, id, worker, _, _, status, detail) =>
          ok := runtime.ArchiveByLease(key, id, worker, status, detail, at);
        case Reschedule(key, id, worker, move) =>
          ok := runtime.RescheduleJobWithLeaseByID(key, id, worker, move, at);
        case Cancel(key, reason) =>
          ok := runtime.CancelJob(key, reason, at);
        case Resume(key, capability, need) =>
          ok := runtime.ResumeIfWaiting(key, capability, need, at);
        case SaveOutcome(_, _, _, _, _) => ok := true;
        case Append(_, _) => ok := true;
      }
      Remember(e, at);
    }

    method Poll(candidates: seq<JobKey>, tenant: string, caps: set<string>, worker: string, duration: int, id: string,
        at: nat)
      returns (lease: Option<Lease>)
      requires Valid() && Candidates(runtime.table, candidates)
      requires at >= Run(EMPTY, history).now && id != "" && id !in Run(EMPTY, history).issued && worker != ""
      modifies this, runtime
      ensures Valid()
      ensures lease.None? ==>
        && history == old(history)
        && forall key :: !Accepted(Run(EMPTY, history), Event.Poll(key, tenant, caps, worker, duration, id), at)
      ensures lease.Some? ==>
        && history == old(history) + [(Event.Poll(lease.value.key, tenant, caps, worker, duration, id), at)]
        && Accepted(Run(EMPTY, old(history)), Event.Poll(lease.value.key, tenant, caps, worker, duration, id), at)
    {
      hide Run, Grant, CanPoll, Candidates;
      lease := runtime.AcquireOneLease(candidates, tenant, caps, worker, duration, id, at);
      if lease.Some? {
        Remember(Event.Poll(lease.value.key, tenant, caps, worker, duration, id), at);
      }
    }
  }
}
