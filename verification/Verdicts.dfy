/**
 When a failure is tried again, and what exactly a call and a job attempt leave in the log, said
 without the functions that decide it (pkg/workflow/worker_retry.go:97-119,
 pkg/workflow/worker_runner.go:784-1352).
 */
module Verdicts {
  import opened Retry
  import opened Chapters
  import opened Runner
  import opened Resume

  /** A recorded failure that its policy lets be tried again: a timeout that says so, and any other
      failure whose type the policy does not list. */
  predicate Retries(err: TaskError, p: RetryPolicy) {
    match err
    case Timeout(_, retryable) => retryable
    case App(_) => "AppError" !in p.nonRetryable && "jobdb.AppError" !in p.nonRetryable
    case System(_) => "SystemError" !in p.nonRetryable && "jobdb.SystemError" !in p.nonRetryable
  }

  lemma RetriesExactly(err: TaskError, p: RetryPolicy)
    ensures IsRetryable(err, p) <==> Retries(err, p)
  {
    var names := KindNames(err);
    assert forall n :: n in names <==> n == names[0] || n == names[1];
    if Named(names, p) {
      var n :| n in p.nonRetryable && n in names;
    }
  }

  /** After attempt n a call is tried again exactly if the failure allows it and attempts are left;
      everything else goes to the job worker. */
  lemma JudgeExactly(p: RetryPolicy, n: nat, o: Outcome)
    ensures Judge(p, n, o) ==
      match o
      case Ok(data) => Verdict.Reply(Value(data))
      case Failed(err) => if n < p.maximumAttempts && Retries(err, p) then Again(n + 1) else Verdict.Reply(Error(err))
  {
    if o.Failed? { RetriesExactly(o.err, p); }
  }

  /** A recorded chapter where a call looks for its outcome: wrong kinds, a missing and a different
      hash are errors of the job worker's own; a chapter without attempt number counts as the
      first. */
  lemma ReadExactly(p: RetryPolicy, input: string, ch: Chapter, ordinal: nat)
    ensures ch.JobStart? || ch.JobOutcome? ==> Read(p, input, ch, ordinal) == Verdict.Reply(Unexpected(ordinal))
    ensures ch.TaskOutcome? || ch.RestartExtra? ==>
      Read(p, input, ch, ordinal) ==
        if ch.hash == "" then Verdict.Reply(NoHash(ordinal))
        else if ch.hash != HashOf(input) then Verdict.Reply(Mismatch(ordinal))
        else match ch.outcome
          case Ok(data) => Verdict.Reply(Value(data))
          case Failed(err) =>
            var n := if ch.attempt <= 1 then 1 else ch.attempt;
            if n < p.maximumAttempts && Retries(err, p) then Again(n + 1) else Verdict.Reply(Error(err))
  {
    if (ch.TaskOutcome? || ch.RestartExtra?) && ch.outcome.Failed? { RetriesExactly(ch.outcome.err, p); }
  }

  lemma JudgeJobExactly(p: RetryPolicy, n: nat, o: Outcome)
    ensures JudgeJob(p, n, o) ==
      if o.Failed? && n < p.maximumAttempts && Retries(o.err, p) then RetryAs(n + 1) else Terminal(o)
  {
    if o.Failed? { RetriesExactly(o.err, p); }
  }

  /** A job outcome may lack its hash, but not have another one. */
  lemma ReadJobExactly(p: RetryPolicy, input: string, ch: Chapter)
    ensures ReadJob(p, input, ch) ==
      if !ch.JobOutcome? || (ch.hash != "" && ch.hash != HashOf(input)) then Bad
      else
        var n := if ch.attempt <= 1 then 1 else ch.attempt;
        if ch.outcome.Failed? && n < p.maximumAttempts && Retries(ch.outcome.err, p) then RetryAs(n + 1)
        else Terminal(ch.outcome)
  {
    if ch.JobOutcome? && ch.outcome.Failed? { RetriesExactly(ch.outcome.err, p); }
  }

  // How many attempts a call makes.

  /** The chapters of `n` attempts from attempt `from` on, recorded from ordinal `at` on. */
  function Attempts(e: Env, task: string, input: string, at: nat, from: nat, n: nat): (chapters: seq<Chapter>)
    ensures |chapters| == n
  {
    seq(n, i requires 0 <= i < n => TaskOutcome(task, HashOf(input), from + i, e.outcome(at + i)))
  }

  /** The n-th attempt from attempt `from` on settles the call: it succeeded, failed for good, or was
      the last one; none before it did. */
  ghost predicate SettlesAfter(e: Env, p: RetryPolicy, at: nat, from: nat, n: nat) {
    && n >= 1
    && (forall j: nat :: at <= j < at + n - 1 ==>
          e.outcome(j).Failed? && Retries(e.outcome(j).err, p) && from + (j - at) < p.maximumAttempts)
    && var last := e.outcome(at + n - 1);
       last.Ok? || !Retries(last.err, p) || from + n - 1 >= p.maximumAttempts
  }

  /** A local call that nothing holds up writes one chapter per attempt until an attempt settles it,
      and no more; the job worker is given the outcome of that attempt. */
  lemma {:induction false} CallWritesItsAttempts(c: Config, e: Env, p: RetryPolicy, task: string, input: string,
      attempt: nat, s: State, n: nat)
    requires !c.replay && task in c.local && s.pos == |s.log| && s.budget >= n
    requires (forall i: nat :: !e.waiting(i)) && SettlesAfter(e, p, s.pos, attempt, n)
    ensures
      var r := TaskLoop(c, e, p, task, input, attempt, s);
      && r.state.log == s.log + Attempts(e, task, input, s.pos, attempt, n)
      && r.reply == Returned(match e.outcome(s.pos + n - 1) case Ok(data) => Value(data) case Failed(err) => Error(err))
      && r.state.pos == s.pos + n && r.state.budget == s.budget - n
    decreases n
  {
    hide TaskLoop, Judge, Retries;
    TaskRuns(c, e, p, task, input, attempt, s);
    JudgeExactly(p, attempt, e.outcome(s.pos));
    var ch := TaskOutcome(task, HashOf(input), attempt, e.outcome(s.pos));
    if n > 1 {
      assert e.outcome(s.pos).Failed? && Retries(e.outcome(s.pos).err, p) && attempt < p.maximumAttempts;
      var u := Write(s.(ran := s.ran + [s.pos]), ch);
      SettlesLater(e, p, s.pos, attempt, n);
      CallWritesItsAttempts(c, e, p, task, input, attempt + 1, u, n - 1);
      assert [ch] + Attempts(e, task, input, s.pos + 1, attempt + 1, n - 1)
        == Attempts(e, task, input, s.pos, attempt, n);
    } else {
      assert Attempts(e, task, input, s.pos, attempt, 1) == [ch];
    }
  }

  lemma {:induction false} SettlesLater(e: Env, p: RetryPolicy, at: nat, from: nat, n: nat)
    requires SettlesAfter(e, p, at, from, n) && n > 1
    ensures SettlesAfter(e, p, at + 1, from + 1, n - 1)
  {
    hide Retries;
  }

  /** If every attempt fails so that it may be tried again, the call makes exactly as many attempts
      as its policy allows. */
  lemma FailingCallUsesAllAttempts(c: Config, e: Env, p: RetryPolicy, task: string, input: string, s: State)
    requires !c.replay && task in c.local && s.pos == |s.log| && p.maximumAttempts >= 1 && s.budget >= p.maximumAttempts
    requires forall i: nat :: !e.waiting(i) && e.outcome(i).Failed? && Retries(e.outcome(i).err, p)
    ensures
      var r := TaskLoop(c, e, p, task, input, 1, s);
      && |r.state.log| == |s.log| + p.maximumAttempts
      && r.reply == Returned(Error(e.outcome(s.pos + p.maximumAttempts - 1).err))
  {
    CallWritesItsAttempts(c, e, p, task, input, 1, s, p.maximumAttempts);
  }

  /** A recorded failure that is to be tried again while its back-off runs: a replay reports it, a live
      visit suspends itself. */
  lemma RunningBackoffStopsTheCall(c: Config, e: Env, p: RetryPolicy, task: string, input: string, attempt: nat,
      s: State)
    requires s.pos < |s.log| && e.waiting(s.pos + 1)
    requires
      var ch := s.log[s.pos];
      && (ch.TaskOutcome? || ch.RestartExtra?) && ch.hash == HashOf(input) && ch.outcome.Failed?
      && Retries(ch.outcome.err, p) && ch.attempt < p.maximumAttempts && p.maximumAttempts > 1
    ensures TaskLoop(c, e, p, task, input, attempt, s) ==
      var reply := if c.replay then Returned(Missed(Miss(s.pos, AwaitNotReady))) else Halted(Parked(s.pos + 1));
      TaskStep(reply, s.(pos := s.pos + 1))
  {
    hide Retries;
    TaskReads(c, e, p, task, input, attempt, s);
    ReadExactly(p, input, s.log[s.pos], s.pos);
  }

  // How a job attempt ends.

  /** A live job worker that has come to an end past the log: what is recorded, and whether the
      lease is completed with it or the job is tried again. */
  lemma AttemptIsSettled(c: Config, e: Env, policy: RunPolicy, input: string, attempt: nat, result: JobResult, s: State)
    requires !c.replay && s.pos == |s.log| && s.budget > 0 && !result.Nothing?
    ensures
      var o := match result
        case Success(data) => Ok(data)
        case Failure(err) => Failed(err)
        case PassedOn(_) => Failed(App("replay cache miss"));
      var u := State(s.log + [JobOutcome(HashOf(input), attempt, o)], s.pos + 1, s.budget - 1, s.ran);
      JobSettle(c, e, policy, input, attempt, result, s) ==
        if o.Failed? && Retries(o.err, policy.retry) && attempt < policy.retry.maximumAttempts then
          if e.waiting(s.pos + 1) then Visit(Parked(s.pos + 1), u) else JobLoop(c, e, policy, input, attempt + 1, u)
        else Visit(Completed(o), u)
  {
    hide JobLoop;
    SettleAgain(c, e, policy, input, attempt, result, s);
    JudgeJobExactly(policy.retry, attempt, Recorded(result));
  }

  /** The other ends of a job worker past the log: one that returned neither a result nor an error ends
      the visit without a word, one that dies before its outcome is written leaves the log as it was,
      and a replay reports what is missing, or the failure it has come to. */
  lemma OtherEnds(c: Config, e: Env, policy: RunPolicy, input: string, attempt: nat, result: JobResult, s: State)
    requires s.pos == |s.log|
    ensures result.Nothing? ==> JobSettle(c, e, policy, input, attempt, result, s) == Visit(Silent, s)
    ensures !result.Nothing? && !c.replay && s.budget == 0 ==>
      JobSettle(c, e, policy, input, attempt, result, s) == Visit(Cut, s)
    ensures !result.Nothing? && c.replay ==>
      JobSettle(c, e, policy, input, attempt, result, s) ==
        Visit(match result
              case Success(_) => MissedAt(Miss(s.pos, JobResultMissing))
              case Failure(err) => Ended(Failed(err))
              case PassedOn(miss) => MissedAt(miss), s)
  {
  }

  /** What a recorded chapter means where a job attempt's outcome is looked for: a success completes the
      lease of a live visit, a final failure is returned with the lease left alone, a failure to be
      tried again starts the next attempt once its back-off is over, and anything else breaks the
      visit. */
  lemma OutcomeIsAnswered(c: Config, e: Env, policy: RunPolicy, input: string, s: State)
    requires s.pos < |s.log|
    ensures
      var ch := s.log[s.pos];
      var v := JobCached(c, e, policy, input, s);
      if !ch.JobOutcome? || (ch.hash != "" && ch.hash != HashOf(input)) then v == Visit(Broken(s.pos), s)
      else match ch.outcome
        case Ok(_) => v.stop == (if c.replay then Ended(ch.outcome) else Completed(ch.outcome)) && v.state.log == s.log
        case Failed(err) =>
          var n := if ch.attempt <= 1 then 1 else ch.attempt;
          if !Retries(err, policy.retry) || n >= policy.retry.maximumAttempts then v == Visit(Ended(ch.outcome), s)
          else if !e.waiting(s.pos + 1) then v == JobLoop(c, e, policy, input, n + 1, s.(pos := s.pos + 1))
          else v == Visit(if c.replay then MissedAt(Miss(s.pos, AwaitNotReady)) else Parked(s.pos + 1), s)
  {
    hide JobLoop, Retries;
    ReadJobExactly(policy.retry, input, s.log[s.pos]);
  }

  /** A visit needs a start chapter, and begins behind it with its input and as the first attempt. */
  lemma VisitNeedsAStart(c: Config, e: Env, budget: nat, log: seq<Chapter>)
    ensures log == [] ==> DoJob(c, e, budget, log).stop == NoStart
    ensures log != [] && !log[0].JobStart? ==> DoJob(c, e, budget, log).stop == Broken(0)
    ensures log == [] || !log[0].JobStart? ==> DoJob(c, e, budget, log).state.log == log
    ensures log != [] && log[0].JobStart? ==>
      DoJob(c, e, budget, log) == JobLoop(c, e, JobPolicy(c, log[0]), log[0].input, 1, State(log, 1, budget, []))
  {
  }

  /** A job whose worker fails every time so that it may be tried again records exactly as many
      outcomes as its policy allows, numbered from `attempt`, and completes the lease with the last. */
  lemma {:induction false} FailingJobUsesAllAttempts(c: Config, e: Env, policy: RunPolicy, input: string, attempt: nat,
      err: TaskError, s: State)
    requires !c.replay && s.pos == |s.log| && 1 <= attempt <= policy.retry.maximumAttempts
    requires s.budget > policy.retry.maximumAttempts - attempt && (forall i: nat :: !e.waiting(i))
    requires Retries(err, policy.retry) && c.program(input, []) == Finish(Failure(err))
    ensures
      var n := policy.retry.maximumAttempts - attempt + 1;
      var v := JobLoop(c, e, policy, input, attempt, s);
      && v.stop == Completed(Failed(err))
      && v.state.log == s.log + seq(n, i requires 0 <= i < n => JobOutcome(HashOf(input), attempt + i, Failed(err)))
    decreases policy.retry.maximumAttempts - attempt
  {
    hide Retries;
    var ch := JobOutcome(HashOf(input), attempt, Failed(err));
    AttemptIsSettled(c, e, policy, input, attempt, Failure(err), s);
    JobRunsItsWorker(c, e, policy, input, attempt, Failure(err), s);
    var n := policy.retry.maximumAttempts - attempt + 1;
    var all := seq(n, i requires 0 <= i < n => JobOutcome(HashOf(input), attempt + i, Failed(err)));
    if n == 1 {
      assert all == [ch];
    } else {
      FailingJobUsesAllAttempts(c, e, policy, input, attempt + 1, err, Write(s, ch));
      var later := seq(n - 1, i requires 0 <= i < n - 1 => JobOutcome(HashOf(input), attempt + 1 + i, Failed(err)));
      assert all == [ch] + later;
    }
  }

  lemma JobRunsItsWorker(c: Config, e: Env, policy: RunPolicy, input: string, attempt: nat, result: JobResult, s: State)
    requires s.pos == |s.log| && c.program(input, []) == Finish(result)
    ensures JobLoop(c, e, policy, input, attempt, s) == JobSettle(c, e, policy, input, attempt, result, s)
  {
  }

  // Whose policy governs.

  /** In a merged policy every setting is the override's if the override makes it, and the base's
      otherwise; settings made nowhere have their defaults: one attempt, and a coefficient of 1. */
  lemma MergedFieldByField(over: RunPolicy, base: RunPolicy)
    ensures
      var r := MergeRun(over, base);
      && (over.retry.initialInterval != 0 ==> r.retry.initialInterval == over.retry.initialInterval)
      && (over.retry.initialInterval == 0 ==> r.retry.initialInterval == base.retry.initialInterval)
      && (over.retry.maximumInterval != 0 ==> r.retry.maximumInterval == over.retry.maximumInterval)
      && (over.retry.maximumInterval == 0 ==> r.retry.maximumInterval == base.retry.maximumInterval)
      && (over.retry.backoffCoefficient != 0.0 ==> r.retry.backoffCoefficient == over.retry.backoffCoefficient)
      && (over.retry.backoffCoefficient == 0.0 && base.retry.backoffCoefficient != 0.0 ==>
            r.retry.backoffCoefficient == base.retry.backoffCoefficient)
      && (over.retry.backoffCoefficient == 0.0 == base.retry.backoffCoefficient ==> r.retry.backoffCoefficient == 1.0)
      && (over.retry.maximumAttempts > 0 ==> r.retry.maximumAttempts == over.retry.maximumAttempts)
      && (over.retry.maximumAttempts < 0 ==> r.retry.maximumAttempts == 1)
      && (over.retry.maximumAttempts == 0 < base.retry.maximumAttempts ==>
            r.retry.maximumAttempts == base.retry.maximumAttempts)
      && (over.retry.maximumAttempts == 0 >= base.retry.maximumAttempts ==> r.retry.maximumAttempts == 1)
      && (over.retry.nonRetryable != [] ==> r.retry.nonRetryable == over.retry.nonRetryable)
      && (over.retry.nonRetryable == [] ==> r.retry.nonRetryable == base.retry.nonRetryable)
  {
  }

  /** A timeout below zero is no timeout, and hides the base's; a timeout of zero is one. */
  lemma MergedTimeouts(over: RunPolicy, base: RunPolicy)
    ensures MergedTimeout(over.invocationTimeout, base.invocationTimeout, MergeRun(over, base).invocationTimeout)
    ensures MergedTimeout(over.totalTimeout, base.totalTimeout, MergeRun(over, base).totalTimeout)
  {
  }

  predicate MergedTimeout(over: Option<int>, base: Option<int>, merged: Option<int>) {
    && (merged.Some? ==> merged.value >= 0 && (merged == over || (over.None? && merged == base)))
    && (merged.None? ==> if over.Some? then over.value < 0 else base.None? || base.value < 0)
  }

  /** A call's own settings come before the job's, setting by setting, and a call never has fewer
      than one attempt. */
  lemma CallSettingsComeFirst(over: RunPolicy, job: RunPolicy)
    ensures Effective(over, job) == MergeRun(over, job).retry && Effective(over, job).maximumAttempts >= 1
    ensures over.retry.maximumAttempts > 0 ==> Effective(over, job).maximumAttempts == over.retry.maximumAttempts
  {
  }

  /** The start chapter's settings come before those of the row, and those before nothing. */
  lemma StartSettingsComeFirst(c: Config, start: Chapter)
    requires start.JobStart?
    ensures start.policy.Some? ==> JobPolicy(c, start) == MergeRun(start.policy.value, c.base)
    ensures start.policy.None? ==> JobPolicy(c, start) == MergeRun(UNSET, c.base)
  {
  }

  /** The durations below zero and the defaults, of a policy on its own. */
  lemma NormalizedFieldByField(p: RunPolicy)
    ensures
      var r := NormalizeRun(p);
      && r == p.(retry := p.retry.(maximumAttempts := r.retry.maximumAttempts,
                                   backoffCoefficient := r.retry.backoffCoefficient),
                 invocationTimeout := r.invocationTimeout, totalTimeout := r.totalTimeout)
      && (p.retry.maximumAttempts >= 1 ==> r.retry.maximumAttempts == p.retry.maximumAttempts)
      && (p.retry.maximumAttempts < 1 ==> r.retry.maximumAttempts == 1)
      && r.retry.backoffCoefficient == (if p.retry.backoffCoefficient == 0.0 then 1.0 else p.retry.backoffCoefficient)
      && MergedTimeout(p.invocationTimeout, None, r.invocationTimeout)
      && MergedTimeout(p.totalTimeout, None, r.totalTimeout)
  {
  }
}
