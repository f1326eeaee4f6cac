/**
 Back-offs hold across crashes: a visit never writes a retry of a task, or the first chapter of a
 retried job attempt, while the back-off recorded before it is still running, also when that
 failure was recorded by an earlier visit.
 */
module Backoff {
  import opened Retry
  import opened Chapters
  import opened Runner
  import opened Crash
  import Resume
  import Restart

  /** Chapter n is a task's later attempt. */
  predicate RetriesTask(log: seq<Chapter>, n: nat)
    requires n < |log|
  {
    log[n].TaskOutcome? && log[n].attempt > 1
  }

  /** A job attempt has failed and chapter n is the first of the next one. */
  predicate RetriesJob(log: seq<Chapter>, n: nat)
    requires n < |log|
  {
    0 < n && log[n - 1].JobOutcome?
  }

  /** Every retry written from ordinal `from` on was due when it was written. */
  ghost predicate RetriesWereDue(e: Env, from: nat, log: seq<Chapter>) {
    forall n: nat :: from <= n < |log| && (RetriesTask(log, n) || RetriesJob(log, n)) ==> !e.waiting(n)
  }

  /** The same, but for a first chapter that answers to somebody else's job outcome. */
  ghost predicate LaterRetriesWereDue(e: Env, from: nat, log: seq<Chapter>) {
    forall n: nat :: from <= n < |log| && (RetriesTask(log, n) || (from < n && RetriesJob(log, n))) ==> !e.waiting(n)
  }

  ghost predicate WroteTasks(from: nat, log: seq<Chapter>) {
    forall n: nat :: from <= n < |log| ==> log[n].TaskOutcome?
  }

  lemma DueJoins(e: Env, from: nat, mid: seq<Chapter>, log: seq<Chapter>)
    requires LaterRetriesWereDue(e, from, mid) && LaterRetriesWereDue(e, |mid|, log) && mid <= log && from <= |mid|
    requires from == |mid| || mid[|mid| - 1].TaskOutcome? || !e.waiting(|mid|)
    ensures LaterRetriesWereDue(e, from, log)
  {
    forall n: nat | from <= n < |log| && (RetriesTask(log, n) || (from < n && RetriesJob(log, n)))
      ensures !e.waiting(n)
    {
      if n < |mid| {
        assert RetriesTask(mid, n) == RetriesTask(log, n) && RetriesJob(mid, n) == RetriesJob(log, n);
      } else if n == |mid| && from < n {
        assert log[n - 1] == mid[n - 1];
      }
    }
  }

  lemma {:induction false} TaskWaits(c: Config, e: Env, p: RetryPolicy, task: string, input: string, attempt: nat,
      s: State)
    requires s.pos <= |s.log| && (s.pos == |s.log| && attempt > 1 ==> !e.waiting(s.pos))
    ensures
      var log := TaskLoop(c, e, p, task, input, attempt, s).state.log;
      LaterRetriesWereDue(e, |s.log|, log) && WroteTasks(|s.log|, log)
    decreases |s.log| - s.pos, AttemptsLeft(p, attempt)
  {
    if s.pos < |s.log| {
      var verdict := Read(p, input, s.log[s.pos], s.pos);
      if verdict.Again? && !e.waiting(s.pos + 1) {
        TaskWaits(c, e, p, task, input, verdict.attempt, s.(pos := s.pos + 1));
      }
    } else if !c.replay && task in c.local && s.budget > 0 {
      var ch := TaskOutcome(task, HashOf(input), attempt, e.outcome(s.pos));
      var u := Write(s.(ran := s.ran + [s.pos]), ch);
      assert LaterRetriesWereDue(e, |s.log|, u.log);
      var verdict := Judge(p, attempt, e.outcome(s.pos));
      if verdict.Again? && !e.waiting(u.pos) {
        TaskWaits(c, e, p, task, input, verdict.attempt, u);
        DueJoins(e, |s.log|, u.log, TaskLoop(c, e, p, task, input, attempt, s).state.log);
      }
    }
  }

  lemma {:induction false} WorkerWaits(c: Config, e: Env, policy: RunPolicy, input: string, hist: seq<Return>, s: State)
    requires s.pos <= |s.log|
    ensures
      var log := WorkerLoop(c, e, policy, input, hist, s).state.log;
      LaterRetriesWereDue(e, |s.log|, log) && WroteTasks(|s.log|, log)
    decreases |s.log| - s.pos + s.budget
  {
    match c.program(input, hist)
    case Finish(_) =>
    case DoTask(over, task, taskInput) =>
      var t := TaskLoop(c, e, Effective(over, policy), task, taskInput, 1, s);
      TaskWaits(c, e, Effective(over, policy), task, taskInput, 1, s);
      if t.reply.Returned? {
        WorkerWaits(c, e, policy, input, hist + [t.reply.ret], t.state);
        DueJoins(e, |s.log|, t.state.log, WorkerLoop(c, e, policy, input, hist, s).state.log);
      }
  }

  lemma {:induction false} JobWaits(c: Config, e: Env, policy: RunPolicy, input: string, attempt: nat, s: State)
    requires s.pos <= |s.log|
    ensures LaterRetriesWereDue(e, |s.log|, JobLoop(c, e, policy, input, attempt, s).state.log)
    decreases |s.log| - s.pos, AttemptsLeft(policy.retry, attempt), 2
  {
    if s.pos < |s.log| && s.log[s.pos].JobOutcome? {
      CachedWaits(c, e, policy, input, s);
    } else {
      WorkerWaits(c, e, policy, input, [], s);
      var w := WorkerLoop(c, e, policy, input, [], s);
      if w.Finished? {
        SettleWaits(c, e, policy, input, attempt, w.result, w.state);
        DueJoins(e, |s.log|, w.state.log, JobLoop(c, e, policy, input, attempt, s).state.log);
      }
    }
  }

  lemma {:induction false} SettleWaits(c: Config, e: Env, policy: RunPolicy, input: string, attempt: nat,
      result: JobResult, s: State)
    requires s.pos <= |s.log|
    ensures LaterRetriesWereDue(e, |s.log|, JobSettle(c, e, policy, input, attempt, result, s).state.log)
    decreases |s.log| - s.pos, AttemptsLeft(policy.retry, attempt), 1
  {
    if !result.Nothing? {
      if s.pos < |s.log| {
        CachedWaits(c, e, policy, input, s);
      } else if !c.replay && s.budget > 0 {
        Resume.SettleAgain(c, e, policy, input, attempt, result, s);
        var u := Write(s, JobOutcome(HashOf(input), attempt, Recorded(result)));
        assert LaterRetriesWereDue(e, |s.log|, u.log);
        var verdict := JudgeJob(policy.retry, attempt, Recorded(result));
        if verdict.RetryAs? && !e.waiting(u.pos) {
          JobWaits(c, e, policy, input, verdict.attempt, u);
          DueJoins(e, |s.log|, u.log, JobSettle(c, e, policy, input, attempt, result, s).state.log);
        }
      }
    }
  }

  lemma {:induction false} CachedWaits(c: Config, e: Env, policy: RunPolicy, input: string, s: State)
    requires s.pos < |s.log|
    ensures LaterRetriesWereDue(e, |s.log|, JobCached(c, e, policy, input, s).state.log)
    decreases |s.log| - s.pos, 0, 0
  {
    var verdict := ReadJob(policy.retry, input, s.log[s.pos]);
    if verdict.RetryAs? && !e.waiting(s.pos + 1) {
      JobWaits(c, e, policy, input, verdict.attempt, s.(pos := s.pos + 1));
    }
  }

  /** On whatever log a visit starts, its task retries and its later job attempts were due. */
  lemma VisitWaits(c: Config, e: Env, budget: nat, log: seq<Chapter>)
    ensures LaterRetriesWereDue(e, |log|, DoJob(c, e, budget, log).state.log)
  {
    if log != [] && log[0].JobStart? {
      JobWaits(c, e, JobPolicy(c, log[0]), log[0].input, 1, State(log, 1, budget, []));
    }
  }

  /** A log that some visit of c leaves when it starts on nothing but this start chapter. */
  ghost predicate Reachable(c: Config, start: Chapter, log: seq<Chapter>) {
    exists once: Plan :: DoJob(c, once.env, once.budget, [start]).state.log == log
  }

  /** That is every log which any number of visits leave, wherever they die. */
  lemma ReachableGrows(c: Config, start: Chapter, e: Env, budget: nat, M: seq<Chapter>)
    requires !c.replay && Reachable(c, start, M)
    ensures Reachable(c, start, DoJob(c, e, budget, M).state.log)
  {
    var once: Plan :| DoJob(c, once.env, once.budget, [start]).state.log == M;
    var plans := [once, Plan(e, budget)];
    assert plans[..1] == [once] && [once][..0] == [];
    assert LogAfter(c, [once], [start]) == LastVisit(c, [once], [start]).state.log;
    assert LogAfter(c, [], [start]) == [start];
    assert LastVisit(c, plans, [start]) == DoJob(c, e, budget, M);
    CrashSimulation(c, plans, [start]);
    var single: Plan :| CouldHaveBeen(c, single, [start], LastVisit(c, plans, [start]));
  }

  const QUIET := Env((n: nat) => Ok(""), (n: nat) => false)

  /** A visit without budget leaves the log as it found it. */
  lemma NoBudgetNoChapter(c: Config, e: Env, log: seq<Chapter>)
    requires !c.replay
    ensures DoJob(c, e, 0, log).state.log == log
  {
    if log != [] && log[0].JobStart? {
      assert Advances(c, State(log, 1, 0, []), DoJob(c, e, 0, log).state);
    }
  }

  /** So is what is left of such a log when it is cut, as a restart cuts it. */
  lemma PrefixIsReachable(c: Config, start: Chapter, log: seq<Chapter>, M: seq<Chapter>)
    requires !c.replay && Reachable(c, start, log) && M != [] && M <= log
    ensures Reachable(c, start, M)
  {
    hide DoJob;
    var once: Plan :| DoJob(c, once.env, once.budget, [start]).state.log == log;
    assert [start] <= log;
    VisitResumes(c, once, QUIET, 0, [start], M);
    NoBudgetNoChapter(c, QUIET, M);
    var single := Plan(Resume.Splice(M, QUIET), |M| - 1);
    Restart.VisitParks(c, QUIET, 0, M);
    assert DoJob(c, single.env, single.budget, [start]).state.log == M;
  }

  lemma WritesOnlyAfterAStart(c: Config, e: Env, budget: nat, M: seq<Chapter>)
    requires |M| < |DoJob(c, e, budget, M).state.log|
    ensures M != [] && M[0].JobStart?
  {
  }

  /** What a visit writes right after a recorded job outcome was due: a single visit would have
      waited at the same place. */
  lemma FirstAttemptWrittenWasDue(c: Config, e: Env, budget: nat, start: Chapter, M: seq<Chapter>)
    requires !c.replay && Reachable(c, start, M)
    requires |M| < |DoJob(c, e, budget, M).state.log| && M != [] && M[|M| - 1].JobOutcome?
    ensures !e.waiting(|M|)
  {
    hide DoJob;
    var log := DoJob(c, e, budget, M).state.log;
    var first: Plan :| DoJob(c, first.env, first.budget, [start]).state.log == M;
    WritesOnlyAfterAStart(c, e, budget, M);
    VisitResumes(c, first, e, budget, [start], M);
    var single := Resume.Splice(M, e);
    VisitWaits(c, single, |M| - 1 + budget, [start]);
    assert log == DoJob(c, single, |M| - 1 + budget, [start]).state.log;
    assert RetriesJob(log, |M|);
    assert !single.waiting(|M|);
  }

  /** Whatever crashes came before, every retry a visit writes was due when it wrote it: the first
      chapter it writes as well, which may answer to a failure that another visit recorded. */
  lemma NoRetryBeforeItsBackoff(c: Config, e: Env, budget: nat, start: Chapter, M: seq<Chapter>)
    requires !c.replay && Reachable(c, start, M)
    ensures RetriesWereDue(e, |M|, DoJob(c, e, budget, M).state.log)
  {
    hide DoJob;
    var log := DoJob(c, e, budget, M).state.log;
    if |M| < |log| && M != [] && M[|M| - 1].JobOutcome? {
      FirstAttemptWrittenWasDue(c, e, budget, start, M);
    }
    VisitWaits(c, e, budget, M);
  }
}
