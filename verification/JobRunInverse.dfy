/**
 `GetJobRun` against the writer: the groups it finds are the job attempts and `DoTask` calls
 that wrote the log, and reading them off in order gives the log back.
 */
module JobRunInverse {
  import opened Retry
  import opened Chapters
  import opened Runner
  import opened History
  import opened JobRun
  import opened Crash

  function Numbered(chapters: seq<Chapter>, at: nat): seq<Entry> {
    if chapters == [] then [] else [Entry(at, chapters[0])] + Numbered(chapters[1..], at + 1)
  }

  /** One task run for each `DoTask` call. */
  function Runs(calls: seq<CallRecord>, at: nat): seq<TaskRun> {
    if calls == [] || calls[0].chapters == [] then []
    else
      var chapters := calls[0].chapters;
      [TaskRun(TaskOf(chapters[0]), at, Numbered(chapters, at))] + Runs(calls[1..], at + |chapters|)
  }

  function AsAttempt(a: AttemptRecord, n: nat, at: nat): JobAttempt {
    var outcome := if a.outcome.Some? then Some(Entry(at + |Written(a.calls)|, a.outcome.value)) else None;
    JobAttempt(n, outcome, Runs(a.calls, at))
  }

  /** One job attempt for each run of the job worker, except one that has left nothing yet. */
  function Expected(h: seq<AttemptRecord>, n: nat, at: nat): seq<JobAttempt> {
    if h == [] || (h[0].calls == [] && h[0].outcome.None?) then []
    else [AsAttempt(h[0], n, at)] + Expected(h[1..], n + 1, at + |OfAttempt(h[0])|)
  }

  /** The first job attempt is listed even before it has left a chapter. */
  function Regrouped(h: seq<AttemptRecord>): seq<JobAttempt> {
    var attempts := Expected(h, 1, 1);
    if attempts == [] then [JobAttempt(1, None, [])] else attempts
  }

  function EntriesOf(runs: seq<TaskRun>): seq<Entry> {
    if runs == [] then [] else runs[0].attempts + EntriesOf(runs[1..])
  }

  function Flattened(attempts: seq<JobAttempt>): seq<Entry> {
    if attempts == [] then []
    else
      EntriesOf(attempts[0].tasks) +
      (if attempts[0].outcome.Some? then [attempts[0].outcome.value] else []) +
      Flattened(attempts[1..])
  }

  lemma {:induction false} NumberedJoins(a: seq<Chapter>, b: seq<Chapter>, at: nat)
    ensures Numbered(a + b, at) == Numbered(a, at) + Numbered(b, at + |a|)
  {
    if a == [] {
      assert a + b == b;
    } else {
      assert (a + b)[1..] == a[1..] + b;
      NumberedJoins(a[1..], b, at + 1);
    }
  }

  /** Attempts at or after `n` are not listed yet. */
  ghost predicate Below(done: seq<JobAttempt>, n: nat) {
    forall i :: 0 <= i < |done| ==> done[i].number < n
  }

  lemma FindNext(done: seq<JobAttempt>, n: nat, tasks: seq<TaskRun>)
    requires Below(done, n)
    ensures Find(done, n) == |done|
    ensures Find(done + [JobAttempt(n, None, tasks)], n) == |done|
    ensures Ensure(done + [JobAttempt(n, None, tasks)], n) == done + [JobAttempt(n, None, tasks)]
  {
    FindAppended(done, JobAttempt(n, None, tasks), n);
  }

  function Open(done: seq<JobAttempt>, n: nat, tasks: seq<TaskRun>, running: bool): Grouping {
    Grouping(done + [JobAttempt(n, None, tasks)], n, running)
  }

  /** A task outcome opens a new run, or extends the last one if it is a later attempt of it. */
  lemma TakesTask(done: seq<JobAttempt>, n: nat, tasks: seq<TaskRun>, running: bool, e: Entry)
    requires Below(done, n) && e.chapter.TaskOutcome?
    ensures
      var extend := running && AttemptOf(e.chapter.attempt) > 1 && tasks != []
        && tasks[|tasks| - 1].task == TaskOf(e.chapter);
      Take(Open(done, n, tasks, running), e) == Some(Open(done, n, TakeTask(tasks, extend, e), true))
  {
    FindNext(done, n, tasks);
    var attempts := done + [JobAttempt(n, None, tasks)];
    forall tasks' ensures attempts[|done| := JobAttempt(n, None, tasks')] == done + [JobAttempt(n, None, tasks')] {}
  }

  /** The chapters stand in the log from ordinal `at` on. */
  ghost predicate Stands(log: seq<Chapter>, at: nat, chapters: seq<Chapter>) {
    at + |chapters| <= |log| && forall k :: 0 <= k < |chapters| ==> log[at + k] == chapters[k]
  }

  lemma StandsSplits(log: seq<Chapter>, at: nat, a: seq<Chapter>, b: seq<Chapter>)
    requires Stands(log, at, a + b)
    ensures Stands(log, at, a) && Stands(log, at + |a|, b)
  {
    forall k | 0 <= k < |a| ensures log[at + k] == a[k] {
      assert (a + b)[k] == a[k];
    }
    forall k | 0 <= k < |b| ensures log[at + |a| + k] == b[k] {
      assert (a + b)[|a| + k] == b[k];
    }
  }

  function Longer(run: TaskRun, chapters: seq<Chapter>, at: nat): TaskRun {
    run.(attempts := run.attempts + Numbered(chapters, at))
  }

  lemma LongerByOne(run: TaskRun, chapters: seq<Chapter>, at: nat)
    requires chapters != []
    ensures Longer(run.(attempts := run.attempts + [Entry(at, chapters[0])]), chapters[1..], at + 1)
         == Longer(run, chapters, at)
  {
    assert run.attempts + [Entry(at, chapters[0])] + Numbered(chapters[1..], at + 1)
      == run.attempts + Numbered(chapters, at);
  }

  lemma TaskExtends(tasks: seq<TaskRun>, run: TaskRun, e: Entry)
    ensures TakeTask(tasks + [run], true, e) == tasks + [run.(attempts := run.attempts + [e])]
  {
  }

  lemma {:induction false} ExtendsRun(done: seq<JobAttempt>, n: nat, tasks: seq<TaskRun>, run: TaskRun,
      chapters: seq<Chapter>, log: seq<Chapter>, at: nat)
    requires Below(done, n) && Stands(log, at, chapters)
    requires forall i :: 0 <= i < |chapters| ==>
      chapters[i].TaskOutcome? && chapters[i].attempt >= 2 && chapters[i].task == run.task
    ensures TakeFrom(Open(done, n, tasks + [run], true), log, at)
         == TakeFrom(Open(done, n, tasks + [Longer(run, chapters, at)], true), log, at + |chapters|)
    decreases |chapters|
  {
    hide Take;
    if chapters == [] {
      assert run.attempts + [] == run.attempts;
    } else {
      var e := Entry(at, chapters[0]);
      TakesTask(done, n, tasks + [run], true, e);
      TaskExtends(tasks, run, e);
      LongerByOne(run, chapters, at);
      assert log[at] == chapters[0] && [chapters[0]] + chapters[1..] == chapters;
      StandsSplits(log, at, [chapters[0]], chapters[1..]);
      ExtendsRun(done, n, tasks, run.(attempts := run.attempts + [e]), chapters[1..], log, at + 1);
    }
  }

  lemma TakesCall(done: seq<JobAttempt>, n: nat, tasks: seq<TaskRun>, running: bool, call: CallRecord, whole: bool,
      log: seq<Chapter>, at: nat)
    requires Below(done, n) && Chain(call.policy, 1, call.chapters, whole) && Stands(log, at, call.chapters)
    ensures TakeFrom(Open(done, n, tasks, running), log, at)
         == TakeFrom(Open(done, n, tasks + Runs([call], at), true), log, at + |call.chapters|)
  {
    hide Take;
    var chapters := call.chapters;
    var e := Entry(at, chapters[0]);
    var run := TaskRun(TaskOf(chapters[0]), at, [e]);
    TakesTask(done, n, tasks, running, e);
    assert log[at] == chapters[0] && [chapters[0]] + chapters[1..] == chapters;
    StandsSplits(log, at, [chapters[0]], chapters[1..]);
    ExtendsRun(done, n, tasks, run, chapters[1..], log, at + 1);
    assert Runs([call], at) == [Longer(run, chapters[1..], at + 1)];
  }

  lemma RunsGrow(tasks: seq<TaskRun>, calls: seq<CallRecord>, at: nat)
    requires calls != [] && calls[0].chapters != []
    ensures tasks + Runs(calls, at) == (tasks + Runs([calls[0]], at)) + Runs(calls[1..], at + |calls[0].chapters|)
  {
    assert Runs([calls[0]], at) == [Runs(calls, at)[0]];
  }

  lemma GoodTail(calls: seq<CallRecord>, whole: bool)
    requires GoodCalls(calls, whole) && calls != []
    ensures Chain(calls[0].policy, 1, calls[0].chapters, whole || |calls| > 1) && GoodCalls(calls[1..], whole)
  {
  }

  lemma {:induction false} TakesCalls(done: seq<JobAttempt>, n: nat, tasks: seq<TaskRun>, running: bool,
      calls: seq<CallRecord>, whole: bool, log: seq<Chapter>, at: nat)
    requires Below(done, n) && GoodCalls(calls, whole) && Stands(log, at, Written(calls))
    ensures TakeFrom(Open(done, n, tasks, running), log, at)
         == TakeFrom(Open(done, n, tasks + Runs(calls, at), running || calls != []), log, at + |Written(calls)|)
    decreases |calls|
  {
    hide Take;
    if calls == [] {
      assert tasks + [] == tasks;
    } else {
      var call := calls[0];
      GoodTail(calls, whole);
      StandsSplits(log, at, call.chapters, Written(calls[1..]));
      TakesCall(done, n, tasks, running, call, whole || |calls| > 1, log, at);
      TakesCalls(done, n, tasks + Runs([call], at), true, calls[1..], whole, log, at + |call.chapters|);
      RunsGrow(tasks, calls, at);
    }
  }

  lemma TakesOutcome(done: seq<JobAttempt>, n: nat, tasks: seq<TaskRun>, running: bool, e: Entry)
    requires Below(done, n) && e.chapter.JobOutcome? && e.chapter.attempt == n >= 1
    ensures Take(Open(done, n, tasks, running), e)
         == Some(Grouping(done + [JobAttempt(n, Some(e), tasks)], n + 1, false))
  {
    FindNext(done, n, tasks);
    var attempts := done + [JobAttempt(n, None, tasks)];
    assert attempts[|done| := JobAttempt(n, Some(e), tasks)] == done + [JobAttempt(n, Some(e), tasks)];
  }

  /** The state between two job attempts takes a chapter as if the next one were listed. */
  lemma TakesLazily(done: seq<JobAttempt>, n: nat, log: seq<Chapter>, at: nat)
    requires Below(done, n) && n >= 1 && at < |log|
    requires log[at].TaskOutcome? || (log[at].JobOutcome? && log[at].attempt == n)
    ensures TakeFrom(Grouping(done, n, false), log, at) == TakeFrom(Open(done, n, [], false), log, at)
  {
    FindNext(done, n, []);
    assert Ensure(done, n) == done + [JobAttempt(n, None, [])];
  }

  ghost predicate TakesAs(g: Option<Grouping>, attempts: seq<JobAttempt>) {
    g.Some? && g.value.attempts == attempts
  }

  /** What stands after the job attempts in `done`: nothing, or attempt n listed and empty. */
  function Between(done: seq<JobAttempt>, n: nat, listed: bool): Grouping {
    if listed then Open(done, n, [], false) else Grouping(done, n, false)
  }

  lemma FlatStarts(h: seq<AttemptRecord>, p: RetryPolicy, hash: string, n: nat)
    requires GoodHistory(h, p, hash, n) && h != [] && (h[0].calls != [] || h[0].outcome.Some?)
    ensures Flat(h) != [] && (Flat(h)[0].TaskOutcome? || (Flat(h)[0].JobOutcome? && Flat(h)[0].attempt == n))
  {
    if h[0].calls != [] {
      assert Chain(h[0].calls[0].policy, 1, h[0].calls[0].chapters, h[0].outcome.Some? || 0 < |h[0].calls| - 1);
      assert Flat(h)[0] == h[0].calls[0].chapters[0];
    }
  }

  /** The calls and, once recorded, the outcome of one job attempt. */
  lemma TakesAttempt(done: seq<JobAttempt>, n: nat, a: AttemptRecord, log: seq<Chapter>, at: nat)
    requires Below(done, n) && n >= 1 && GoodCalls(a.calls, a.outcome.Some?) && Stands(log, at, OfAttempt(a))
    requires a.outcome.Some? ==> a.outcome.value.JobOutcome? && a.outcome.value.attempt == n
    ensures TakeFrom(Open(done, n, [], false), log, at) == TakeFrom(
      match a.outcome
      case None => Open(done, n, Runs(a.calls, at), a.calls != [])
      case Some(_) => Grouping(done + [AsAttempt(a, n, at)], n + 1, false), log, at + |OfAttempt(a)|)
  {
    hide Take;
    var runs := Runs(a.calls, at);
    assert [] + runs == runs;
    var tail := if a.outcome.Some? then [a.outcome.value] else [];
    var last := at + |Written(a.calls)|;
    StandsSplits(log, at, Written(a.calls), tail);
    TakesCalls(done, n, [], false, a.calls, a.outcome.Some?, log, at);
    if a.outcome.Some? {
      assert tail[0] == log[last + 0];
      TakesOutcome(done, n, runs, a.calls != [], Entry(last, a.outcome.value));
    }
  }

  lemma HistoryTail(h: seq<AttemptRecord>, p: RetryPolicy, hash: string, n: nat)
    requires GoodHistory(h, p, hash, n) && h != []
    ensures GoodCalls(h[0].calls, h[0].outcome.Some?) && GoodHistory(h[1..], p, hash, n + 1)
    ensures h[0].outcome.None? ==> h[1..] == []
  {
    if h[0].outcome.None? { assert h[1..] == []; }
  }

  lemma NothingFlat(h: seq<AttemptRecord>, p: RetryPolicy, hash: string, n: nat)
    requires GoodHistory(h, p, hash, n) && (h != [] ==> h[0].calls == [] && h[0].outcome.None?)
    ensures Flat(h) == []
  {
    if h != [] {
      assert OfAttempt(h[0]) == [];
      assert h == [h[0]];
    }
  }

  lemma ExpectedGrows(done: seq<JobAttempt>, h: seq<AttemptRecord>, n: nat, at: nat)
    requires h != [] && (h[0].calls != [] || h[0].outcome.Some?)
    ensures done + Expected(h, n, at)
         == (done + [AsAttempt(h[0], n, at)]) + Expected(h[1..], n + 1, at + |OfAttempt(h[0])|)
  {
  }

  /** The attempts grouped after taking h, from the state that follows the attempts in `done`. */
  function After(done: seq<JobAttempt>, n: nat, listed: bool, h: seq<AttemptRecord>, at: nat): seq<JobAttempt> {
    if Expected(h, n, at) == [] then Between(done, n, listed).attempts else done + Expected(h, n, at)
  }

  lemma AfterFirst(done: seq<JobAttempt>, n: nat, listed: bool, h: seq<AttemptRecord>, at: nat)
    requires h != [] && (h[0].calls != [] || h[0].outcome.Some?)
    ensures After(done, n, listed, h, at)
         == After(done + [AsAttempt(h[0], n, at)], n + 1, false, h[1..], at + |OfAttempt(h[0])|)
  {
    ExpectedGrows(done, h, n, at);
  }

  /** The first job attempt of a history that has left something, then the rest. */
  lemma TakesFirst(done: seq<JobAttempt>, n: nat, listed: bool, h: seq<AttemptRecord>, p: RetryPolicy, hash: string,
      log: seq<Chapter>, at: nat)
    requires Below(done, n) && n >= 1 && GoodHistory(h, p, hash, n) && Stands(log, at, Flat(h))
    requires h != [] && (h[0].calls != [] || h[0].outcome.Some?)
    ensures
      var next := at + |OfAttempt(h[0])|;
      Stands(log, next, Flat(h[1..])) && TakeFrom(Between(done, n, listed), log, at) == TakeFrom(
        if h[0].outcome.None? then Open(done, n, Runs(h[0].calls, at), true)
        else Grouping(done + [AsAttempt(h[0], n, at)], n + 1, false), log, next)
  {
    hide Take;
    FlatStarts(h, p, hash, n);
    assert log[at + 0] == Flat(h)[0];
    TakesLazily(done, n, log, at);
    StandsSplits(log, at, OfAttempt(h[0]), Flat(h[1..]));
    TakesAttempt(done, n, h[0], log, at);
  }

  lemma {:induction false} TakesHistory(done: seq<JobAttempt>, n: nat, listed: bool, h: seq<AttemptRecord>,
      p: RetryPolicy, hash: string, log: seq<Chapter>, at: nat)
    requires Below(done, n) && n >= 1 && GoodHistory(h, p, hash, n)
    requires Stands(log, at, Flat(h)) && |log| == at + |Flat(h)|
    ensures TakesAs(TakeFrom(Between(done, n, listed), log, at), After(done, n, listed, h, at))
    decreases |h|
  {
    hide Take, GoodHistory, OfAttempt;
    if h == [] || (h[0].calls == [] && h[0].outcome.None?) {
      NothingFlat(h, p, hash, n);
    } else {
      TakesFirst(done, n, listed, h, p, hash, log, at);
      AfterFirst(done, n, listed, h, at);
      HistoryTail(h, p, hash, n);
      if h[0].outcome.Some? {
        TakesHistory(done + [AsAttempt(h[0], n, at)], n + 1, false, h[1..], p, hash, log, at + |OfAttempt(h[0])|);
      }
    }
  }

  lemma {:induction false} RunsFlatten(calls: seq<CallRecord>, whole: bool, at: nat)
    requires GoodCalls(calls, whole)
    ensures EntriesOf(Runs(calls, at)) == Numbered(Written(calls), at)
    decreases |calls|
  {
    if calls == [] {
    } else {
      assert Chain(calls[0].policy, 1, calls[0].chapters, whole || 0 < |calls| - 1);
      assert GoodCalls(calls[1..], whole);
      RunsFlatten(calls[1..], whole, at + |calls[0].chapters|);
      NumberedJoins(calls[0].chapters, Written(calls[1..]), at);
      assert Runs(calls, at)[1..] == Runs(calls[1..], at + |calls[0].chapters|);
    }
  }

  lemma AttemptFlattens(a: AttemptRecord, n: nat, at: nat)
    requires GoodCalls(a.calls, a.outcome.Some?)
    ensures
      var j := AsAttempt(a, n, at);
      EntriesOf(j.tasks) + (if j.outcome.Some? then [j.outcome.value] else []) == Numbered(OfAttempt(a), at)
  {
    RunsFlatten(a.calls, a.outcome.Some?, at);
    match a.outcome
    case None =>
      assert OfAttempt(a) == Written(a.calls);
    case Some(ch) =>
      NumberedJoins(Written(a.calls), [ch], at);
      assert Numbered([ch], at + |Written(a.calls)|) == [Entry(at + |Written(a.calls)|, ch)];
  }

  lemma {:induction false} ExpectedFlattens(h: seq<AttemptRecord>, p: RetryPolicy, hash: string, n: nat, at: nat)
    requires GoodHistory(h, p, hash, n)
    ensures Flattened(Expected(h, n, at)) == Numbered(Flat(h), at)
    decreases |h|
  {
    hide GoodHistory, OfAttempt, AsAttempt;
    if h == [] || (h[0].calls == [] && h[0].outcome.None?) {
      NothingFlat(h, p, hash, n);
    } else {
      var next := at + |OfAttempt(h[0])|;
      HistoryTail(h, p, hash, n);
      AttemptFlattens(h[0], n, at);
      NumberedJoins(OfAttempt(h[0]), Flat(h[1..]), at);
      assert Expected(h, n, at)[1..] == Expected(h[1..], n + 1, next);
      ExpectedFlattens(h[1..], p, hash, n + 1, next);
    }
  }

  /** Regrouping undoes the writing, and reading the groups in order undoes the regrouping. */
  lemma GroupingInvertsHistory(start: Chapter, h: seq<AttemptRecord>, p: RetryPolicy, hash: string)
    requires start.JobStart? && GoodHistory(h, p, hash, 1)
    ensures Grouped([start] + Flat(h)) == Some(Regrouped(h))
    ensures Flattened(Regrouped(h)) == Numbered(Flat(h), 1)
  {
    var log := [start] + Flat(h);
    StandsSplits(log, 0, [start], Flat(h));
    assert Between([], 1, true) == STARTED by { assert [] + [JobAttempt(1, None, [])] == [JobAttempt(1, None, [])]; }
    TakesHistory([], 1, true, h, p, hash, log, 1);
    assert [] + Expected(h, 1, 1) == Expected(h, 1, 1);
    ExpectedFlattens(h, p, hash, 1, 1);
  }

  /** What the reader returns for a job whose visits were interrupted anywhere: one task run for
      each `DoTask` call the program made, holding exactly that call's retry chain, grouped by the
      program's runs; and every chapter after the start chapter exactly once, in order. */
  lemma GetJobRunInvertsWriter(c: Config, plans: seq<Plan>, start: Chapter)
    requires !c.replay && start.JobStart? && plans != []
    ensures
      var log := LastVisit(c, plans, [start]).state.log;
      exists h: seq<AttemptRecord> ::
        && log == [start] + Flat(h) && GoodHistory(h, JobPolicy(c, start).retry, HashOf(start.input), 1)
        && ByProgram(c, JobPolicy(c, start), start.input, h, false)
        && Grouped(log) == Some(Regrouped(h)) && Flattened(Regrouped(h)) == Numbered(log[1..], 1)
  {
    hide ByProgram;
    LogGrammar(c, plans, start);
    var log := LastVisit(c, plans, [start]).state.log;
    var policy, hash := JobPolicy(c, start), HashOf(start.input);
    var h: seq<AttemptRecord> :|
      log == [start] + Flat(h) && GoodHistory(h, policy.retry, hash, 1) && h != []
        && ByProgram(c, policy, start.input, h, false);
    GroupingInvertsHistory(start, h, policy.retry, hash);
    assert log[1..] == Flat(h);
  }
}
