/**
 Reading a log back: a later visit, live or read-only, over what an earlier live visit wrote.
 `M` always extends the log the earlier visit left.
 */
module Replay {
  import opened Retry
  import opened Chapters
  import opened Runner
  import opened Resume
  import opened Crash

  /** No recorded back-off before ordinal `upTo` is still running. */
  ghost predicate Quiet(e: Env, upTo: nat) {
    forall n: nat :: n < upTo ==> !e.waiting(n)
  }

  function On(M: seq<Chapter>, s: State, a: State): State {
    State(M, s.pos, a.budget, a.ran)
  }

  /** d is the same job worker, live or in replay, with whatever task workers beside it. */
  ghost predicate SameWorker(c: Config, d: Config) {
    !c.replay && d.program == c.program
  }

  /** The same job worker on the same job: both arrive at one effective policy. */
  ghost predicate SameJob(c: Config, d: Config, log: seq<Chapter>) {
    SameWorker(c, d) && (log != [] && log[0].JobStart? ==> JobPolicy(d, log[0]) == JobPolicy(c, log[0]))
  }

  /** A submit stores one normalized policy in the start chapter and in the job row.  A live visit
      starts from the row's policy, or from the one an earlier visit arrived at; a read-only replay
      starts from no policy at all.  All of them arrive at the start chapter's policy. */
  lemma ReplayArrivesAtThePolicy(c: Config, start: Chapter)
    requires start.JobStart? && start.policy.Some? && NormalizeRun(start.policy.value) == start.policy.value
    ensures JobPolicy(c.(base := UNSET), start) == start.policy.value
    ensures JobPolicy(c.(base := start.policy.value), start) == start.policy.value
    ensures JobPolicy(c.(base := JobPolicy(c.(base := start.policy.value), start)), start) == start.policy.value
  {
  }

  /** Without a policy in the start chapter a replay knows none: it arrives at the live policy
      exactly when that is the normalized empty one. */
  lemma WithoutStartPolicyReplayMayDiffer(c: Config, start: Chapter)
    requires start.JobStart? && start.policy.None?
    ensures JobPolicy(c.(base := UNSET), start) == JobPolicy(c, start) <==> NormalizeRun(c.base) == NormalizeRun(UNSET)
  {
  }

  lemma {:induction false} TaskReadsBack(c: Config, d: Config, e1: Env, e2: Env, M: seq<Chapter>, p: RetryPolicy,
      task: string, input: string, attempt: nat, s: State, a: State)
    requires SameWorker(c, d) && attempt >= 1 && Quiet(e2, |M|)
    requires s.pos <= |s.log| && a.log == M && a.pos == s.pos && a.pos <= |M|
    requires
      var r := TaskLoop(c, e1, p, task, input, attempt, s);
      r.reply.Returned? && r.state.log <= M
    ensures
      var r := TaskLoop(c, e1, p, task, input, attempt, s);
      TaskLoop(d, e2, p, task, input, attempt, a) == TaskStep(r.reply, On(M, r.state, a))
    decreases |s.log| - s.pos, AttemptsLeft(p, attempt)
  {
    var r := TaskLoop(c, e1, p, task, input, attempt, s);
    assert s.log <= r.state.log <= M;
    var a' := a.(pos := s.pos + 1);
    if s.pos < |s.log| {
      assert M[s.pos] == s.log[s.pos];
      var verdict := Read(p, input, s.log[s.pos], s.pos);
      if verdict.Again? {
        var s' := s.(pos := s.pos + 1);
        assert s'.pos < r.state.pos <= |M|;
        TaskReadsBack(c, d, e1, e2, M, p, task, input, verdict.attempt, s', a');
      }
    } else {
      var o := e1.outcome(s.pos);
      var ch := TaskOutcome(task, HashOf(input), attempt, o);
      var s' := Write(s.(ran := s.ran + [s.pos]), ch);
      ReaderAgreesWithWriter(p, task, input, attempt, o, s.pos);
      assert s'.log <= r.state.log && s'.log[s.pos] == ch;
      assert M[s.pos] == ch;
      var verdict := Judge(p, attempt, o);
      if verdict.Again? {
        assert s'.pos < r.state.pos <= |M|;
        TaskReadsBack(c, d, e1, e2, M, p, task, input, verdict.attempt, s', a');
      }
    }
  }

  lemma {:induction false} WorkerReadsBack(c: Config, d: Config, e1: Env, e2: Env, M: seq<Chapter>, policy: RunPolicy,
      input: string, hist: seq<Return>, s: State, a: State)
    requires SameWorker(c, d) && Quiet(e2, |M|)
    requires s.pos <= |s.log| && a.log == M && a.pos == s.pos && a.pos <= |M|
    requires
      var r := WorkerLoop(c, e1, policy, input, hist, s);
      r.Finished? && r.state.log <= M
    ensures
      var r := WorkerLoop(c, e1, policy, input, hist, s);
      WorkerLoop(d, e2, policy, input, hist, a) == Finished(r.result, On(M, r.state, a))
    decreases |s.log| - s.pos + s.budget
  {
    match c.program(input, hist)
    case Finish(_) =>
    case DoTask(over, task, taskInput) =>
      var p := Effective(over, policy);
      var t := TaskLoop(c, e1, p, task, taskInput, 1, s);
      var r := WorkerLoop(c, e1, policy, input, hist, s);
      assert t.state.log <= r.state.log;
      TaskReadsBack(c, d, e1, e2, M, p, task, taskInput, 1, s, a);
      WorkerReadsBack(c, d, e1, e2, M, policy, input, hist + [t.reply.ret], t.state, On(M, t.state, a));
  }

  /** How a visit ends over a log that holds the terminal result `o`. */
  function ReadBackEnd(d: Config, o: Outcome): Stop {
    if o.Ok? && !d.replay then Completed(o) else Ended(o)
  }

  ghost predicate HasResult(stop: Stop, o: Outcome) {
    stop == Completed(o) || stop == Ended(o)
  }

  ghost predicate ReadsBackAs(d: Config, o: Outcome, M: seq<Chapter>, a: State, v: Visit) {
    v.stop == ReadBackEnd(d, o) && v.state.log == M && v.state.ran == a.ran && v.state.budget == a.budget
  }

  lemma {:induction false} JobReadsBack(c: Config, d: Config, e1: Env, e2: Env, M: seq<Chapter>, policy: RunPolicy,
      input: string, attempt: nat, o: Outcome, s: State, a: State)
    requires SameWorker(c, d) && attempt >= 1 && Quiet(e2, |M|)
    requires s.pos <= |s.log| && a.log == M && a.pos == s.pos && a.pos <= |M|
    requires
      var r := JobLoop(c, e1, policy, input, attempt, s);
      HasResult(r.stop, o) && r.state.log <= M
    ensures ReadsBackAs(d, o, M, a, JobLoop(d, e2, policy, input, attempt, a))
    decreases |s.log| - s.pos, AttemptsLeft(policy.retry, attempt), 2
  {
    var r := JobLoop(c, e1, policy, input, attempt, s);
    assert s.log <= r.state.log <= M;
    if s.pos < |s.log| && s.log[s.pos].JobOutcome? {
      assert M[s.pos] == s.log[s.pos];
      CachedReadsBack(c, d, e1, e2, M, policy, input, o, s, a);
    } else {
      var w := WorkerLoop(c, e1, policy, input, [], s);
      assert w.state.log <= r.state.log;
      WorkerHasNoResult(c, e1, policy, input, [], s);
      if s.pos < |M| && M[s.pos].JobOutcome? {
        assert s.pos == |s.log|;
        WorkerStartsWithTask(c, e1, policy, input, s);
        assert w.state.log <= M;
        assert w.Finished? && w.state == s;
        WrittenReadsBack(c, d, e1, e2, M, policy, input, attempt, w.result, o, s, a);
      } else {
        WorkerReadsBack(c, d, e1, e2, M, policy, input, [], s, a);
        SettledReadsBack(c, d, e1, e2, M, policy, input, attempt, w.result, o, w.state, On(M, w.state, a));
      }
    }
  }

  lemma {:induction false} SettledReadsBack(c: Config, d: Config, e1: Env, e2: Env, M: seq<Chapter>,
      policy: RunPolicy, input: string, attempt: nat, result: JobResult, o: Outcome, s: State, a: State)
    requires SameWorker(c, d) && attempt >= 1 && Quiet(e2, |M|)
    requires s.pos <= |s.log| && a.log == M && a.pos == s.pos && a.pos <= |M|
    requires
      var r := JobSettle(c, e1, policy, input, attempt, result, s);
      HasResult(r.stop, o) && r.state.log <= M
    ensures ReadsBackAs(d, o, M, a, JobSettle(d, e2, policy, input, attempt, result, a))
    decreases |s.log| - s.pos, AttemptsLeft(policy.retry, attempt), 1
  {
    if s.pos < |s.log| {
      CachedReadsBack(c, d, e1, e2, M, policy, input, o, s, a);
    } else {
      WrittenReadsBack(c, d, e1, e2, M, policy, input, attempt, result, o, s, a);
    }
  }

  lemma {:induction false} CachedReadsBack(c: Config, d: Config, e1: Env, e2: Env, M: seq<Chapter>, policy: RunPolicy,
      input: string, o: Outcome, s: State, a: State)
    requires SameWorker(c, d) && Quiet(e2, |M|)
    requires s.pos < |s.log| && a.log == M && a.pos == s.pos && a.pos <= |M|
    requires
      var r := JobCached(c, e1, policy, input, s);
      HasResult(r.stop, o) && r.state.log <= M
    ensures a.pos < |M| && ReadsBackAs(d, o, M, a, JobCached(d, e2, policy, input, a))
    decreases |s.log| - s.pos, 0, 0
  {
    var r := JobCached(c, e1, policy, input, s);
    assert s.log <= r.state.log <= M;
    assert M[s.pos] == s.log[s.pos];
    var verdict := ReadJob(policy.retry, input, s.log[s.pos]);
    if verdict.RetryAs? {
      var s' := s.(pos := s.pos + 1);
      ResultIsRecorded(c, e1, policy, input, verdict.attempt, o, s');
      JobReadsBack(c, d, e1, e2, M, policy, input, verdict.attempt, o, s', a.(pos := s.pos + 1));
    }
  }

  lemma {:induction false} WrittenReadsBack(c: Config, d: Config, e1: Env, e2: Env, M: seq<Chapter>,
      policy: RunPolicy, input: string, attempt: nat, result: JobResult, o: Outcome, s: State, a: State)
    requires SameWorker(c, d) && attempt >= 1 && Quiet(e2, |M|)
    requires s.pos == |s.log| && a.log == M && a.pos == s.pos && a.pos <= |M|
    requires
      var r := JobSettle(c, e1, policy, input, attempt, result, s);
      HasResult(r.stop, o) && r.state.log <= M
    ensures a.pos < |M| && ReadsBackAs(d, o, M, a, JobCached(d, e2, policy, input, a))
    decreases 0, AttemptsLeft(policy.retry, attempt), 0
  {
    var r := JobSettle(c, e1, policy, input, attempt, result, s);
    var written := Recorded(result);
    var ch := JobOutcome(HashOf(input), attempt, written);
    JobReaderAgreesWithWriter(policy.retry, input, attempt, written);
    var s' := Write(s, ch);
    assert s'.log <= r.state.log && s'.log[s.pos] == ch;
    assert M[s.pos] == ch;
    var verdict := JudgeJob(policy.retry, attempt, written);
    if verdict.RetryAs? {
      ResultIsRecorded(c, e1, policy, input, verdict.attempt, o, s');
      JobReadsBack(c, d, e1, e2, M, policy, input, verdict.attempt, o, s', a.(pos := s.pos + 1));
    }
  }

  /** A live visit with a result has a job outcome in the log beyond where it stood. */
  lemma ResultIsRecorded(c: Config, e: Env, policy: RunPolicy, input: string, attempt: nat, o: Outcome, s: State)
    requires !c.replay && s.pos <= |s.log|
    requires HasResult(JobLoop(c, e, policy, input, attempt, s).stop, o)
    ensures s.pos < |JobLoop(c, e, policy, input, attempt, s).state.log|
  {
    var r := JobLoop(c, e, policy, input, attempt, s);
    if s.pos == |s.log| {
      var w := WorkerLoop(c, e, policy, input, [], s);
      assert w.Finished? by { WorkerHasNoResult(c, e, policy, input, [], s); }
      assert s.log <= w.state.log <= r.state.log;
    }
  }

  /** The job worker's own code never completes a lease. */
  lemma {:induction false} WorkerHasNoResult(c: Config, e: Env, policy: RunPolicy, input: string, hist: seq<Return>,
      s: State)
    requires s.pos <= |s.log|
    ensures
      var r := WorkerLoop(c, e, policy, input, hist, s);
      r.Stopped? ==> r.stop.Cut? || r.stop.Parked? || r.stop.External?
    decreases |s.log| - s.pos + s.budget
  {
    match c.program(input, hist)
    case Finish(_) =>
    case DoTask(over, task, taskInput) =>
      var p := Effective(over, policy);
      TaskHasNoResult(c, e, p, task, taskInput, 1, s);
      var t := TaskLoop(c, e, p, task, taskInput, 1, s);
      if t.reply.Returned? {
        WorkerHasNoResult(c, e, policy, input, hist + [t.reply.ret], t.state);
      }
  }

  lemma {:induction false} TaskHasNoResult(c: Config, e: Env, p: RetryPolicy, task: string, input: string,
      attempt: nat, s: State)
    requires s.pos <= |s.log|
    ensures
      var r := TaskLoop(c, e, p, task, input, attempt, s);
      r.reply.Halted? ==> r.reply.stop.Cut? || r.reply.stop.Parked? || r.reply.stop.External?
    decreases |s.log| - s.pos, AttemptsLeft(p, attempt)
  {
    if s.pos < |s.log| {
      var verdict := Read(p, input, s.log[s.pos], s.pos);
      if verdict.Again? && !e.waiting(s.pos + 1) {
        TaskHasNoResult(c, e, p, task, input, verdict.attempt, s.(pos := s.pos + 1));
      }
    } else if !c.replay && task in c.local && s.budget > 0 {
      var u := Write(s.(ran := s.ran + [s.pos]), TaskOutcome(task, HashOf(input), attempt, e.outcome(s.pos)));
      var verdict := Judge(p, attempt, e.outcome(s.pos));
      if verdict.Again? && !e.waiting(u.pos) {
        TaskHasNoResult(c, e, p, task, input, verdict.attempt, u);
      }
    }
  }

  /** A later visit over the finished log returns the recorded result, writes nothing and runs
      no worker: a replay without meeting a cache miss, a live visit completing the lease
      exactly when the result is a success. */
  lemma FinishedLogReadsBack(c: Config, d: Config, plans: seq<Plan>, e: Env, budget: nat, log: seq<Chapter>, o: Outcome)
    requires SameJob(c, d, log) && plans != [] && log != []
    requires HasResult(LastVisit(c, plans, log).stop, o)
    requires Quiet(e, |LastVisit(c, plans, log).state.log|)
    ensures
      var M := LastVisit(c, plans, log).state.log;
      var again := DoJob(d, e, budget, M);
      && again.state.log == M && again.state.ran == []
      && (d.replay ==> again.stop == Ended(o))
      && (!d.replay ==> again.stop == if o.Ok? then Completed(o) else Ended(o))
  {
    CrashSimulation(c, plans, log);
    var last := LastVisit(c, plans, log);
    var once: Plan :| CouldHaveBeen(c, once, log, last);
    var single := DoJob(c, once.env, once.budget, log);
    var M := last.state.log;
    assert M[0] == log[0];
    if log[0].JobStart? {
      JobReadsBack(c, d, once.env, e, M, JobPolicy(c, log[0]), log[0].input, 1, o,
                   State(log, 1, once.budget, []), State(M, 1, budget, []));
    }
  }

  // Replay over a log cut short: M is a proper prefix of what the first visit left.

  /** The job worker returns a replay cache miss as soon as it is handed one. */
  ghost predicate PassesMissesOn(program: Program) {
    forall input: string, hist: seq<Return>, miss: Miss ::
      program(input, hist + [Missed(miss)]) == Finish(PassedOn(miss))
  }

  /** The miss a replay meets at the end of the log M: the chapter is not there, or the
      back-off recorded just before it has not elapsed. */
  ghost predicate MissAtEnd(M: seq<Chapter>, reason: MissReason, miss: Miss) {
    miss == Miss(|M|, reason) || (miss.reason == AwaitNotReady && miss.ordinal + 1 == |M|)
  }

  /** r: the live call that wrote beyond M, ra: the replayed call on M. */
  ghost predicate TaskMissed(M: seq<Chapter>, r: TaskStep, ra: TaskStep) {
    && |M| < |r.state.log| && r.state.log[|M|].TaskOutcome?
    && ra.reply.Returned? && ra.reply.ret.Missed? && MissAtEnd(M, TaskResultMissing, ra.reply.ret.miss)
    && ra.state.pos == |M| && ra.state.log == M
  }

  lemma {:induction false} TaskMisses(c: Config, d: Config, e1: Env, e2: Env, M: seq<Chapter>, p: RetryPolicy,
      task: string, input: string, attempt: nat, s: State, a: State)
    requires SameWorker(c, d) && d.replay && attempt >= 1 && Quiet(e2, |M|)
    requires s.pos <= |s.log| && s.log <= M && a.log == M && a.pos == s.pos && a.budget > 0
    requires
      var r := TaskLoop(c, e1, p, task, input, attempt, s);
      M <= r.state.log && |M| < |r.state.log|
    ensures TaskMissed(M, TaskLoop(c, e1, p, task, input, attempt, s), TaskLoop(d, e2, p, task, input, attempt, a))
    decreases |s.log| - s.pos, AttemptsLeft(p, attempt), 1
  {
    if s.pos < |s.log| {
      TaskMissesReading(c, d, e1, e2, M, p, task, input, attempt, s, a);
    } else if |M| == |s.log| {
      TaskWritesTasks(c, e1, p, task, input, attempt, s);
    } else {
      TaskMissesWriting(c, d, e1, e2, M, p, task, input, attempt, s, a);
    }
  }

  lemma {:induction false} TaskMissesReading(c: Config, d: Config, e1: Env, e2: Env, M: seq<Chapter>, p: RetryPolicy,
      task: string, input: string, attempt: nat, s: State, a: State)
    requires SameWorker(c, d) && d.replay && attempt >= 1 && Quiet(e2, |M|)
    requires s.pos < |s.log| && s.log <= M && a.log == M && a.pos == s.pos && a.budget > 0
    requires
      var r := TaskLoop(c, e1, p, task, input, attempt, s);
      M <= r.state.log && |M| < |r.state.log|
    ensures TaskMissed(M, TaskLoop(c, e1, p, task, input, attempt, s), TaskLoop(d, e2, p, task, input, attempt, a))
    decreases |s.log| - s.pos, 0, 0
  {
    hide TaskLoop, IsRetryable;
    TaskReads(c, e1, p, task, input, attempt, s);
    TaskReads(d, e2, p, task, input, attempt, a);
    assert M[s.pos] == s.log[s.pos];
    var verdict := Read(p, input, s.log[s.pos], s.pos);
    var s' := s.(pos := s.pos + 1);
    if !e2.waiting(s.pos + 1) {
      TaskMisses(c, d, e1, e2, M, p, task, input, verdict.attempt, s', a.(pos := s.pos + 1));
    } else {
      assert s.log == M;
      TaskWritesTasks(c, e1, p, task, input, verdict.attempt, s');
    }
  }

  lemma {:induction false} TaskMissesWriting(c: Config, d: Config, e1: Env, e2: Env, M: seq<Chapter>, p: RetryPolicy,
      task: string, input: string, attempt: nat, s: State, a: State)
    requires SameWorker(c, d) && d.replay && attempt >= 1 && Quiet(e2, |M|)
    requires s.pos == |s.log| < |M| && s.log <= M && a.log == M && a.pos == s.pos && a.budget > 0
    requires
      var r := TaskLoop(c, e1, p, task, input, attempt, s);
      M <= r.state.log && |M| < |r.state.log|
    ensures TaskMissed(M, TaskLoop(c, e1, p, task, input, attempt, s), TaskLoop(d, e2, p, task, input, attempt, a))
    decreases 0, AttemptsLeft(p, attempt), 0
  {
    var r := TaskLoop(c, e1, p, task, input, attempt, s);
    var o := e1.outcome(s.pos);
    var ch := TaskOutcome(task, HashOf(input), attempt, o);
    var s' := Write(s.(ran := s.ran + [s.pos]), ch);
    ReaderAgreesWithWriter(p, task, input, attempt, o, s.pos);
    assert s'.log <= r.state.log && s'.log[s.pos] == ch;
    assert M[s.pos] == ch && s'.log <= M;
    var verdict := Judge(p, attempt, o);
    if !e2.waiting(s.pos + 1) {
      TaskMisses(c, d, e1, e2, M, p, task, input, verdict.attempt, s', a.(pos := s.pos + 1));
    } else {
      assert s'.log == M;
      TaskWritesTasks(c, e1, p, task, input, verdict.attempt, s');
    }
  }

  lemma {:induction false} TaskWritesTasks(c: Config, e: Env, p: RetryPolicy, task: string, input: string,
      attempt: nat, s: State)
    requires s.pos <= |s.log|
    ensures
      var r := TaskLoop(c, e, p, task, input, attempt, s);
      |s.log| < |r.state.log| ==> r.state.log[|s.log|].TaskOutcome?
    decreases |s.log| - s.pos
  {
    if s.pos < |s.log| {
      var verdict := Read(p, input, s.log[s.pos], s.pos);
      if verdict.Again? && !e.waiting(s.pos + 1) {
        TaskWritesTasks(c, e, p, task, input, verdict.attempt, s.(pos := s.pos + 1));
      }
    } else if !c.replay && task in c.local && s.budget > 0 {
      var u := Write(s.(ran := s.ran + [s.pos]), TaskOutcome(task, HashOf(input), attempt, e.outcome(s.pos)));
      assert u.log <= TaskLoop(c, e, p, task, input, attempt, s).state.log;
    }
  }

  lemma {:induction false} WorkerMisses(c: Config, d: Config, e1: Env, e2: Env, M: seq<Chapter>, policy: RunPolicy,
      input: string, hist: seq<Return>, s: State, a: State)
    requires SameWorker(c, d) && d.replay && Quiet(e2, |M|) && PassesMissesOn(c.program)
    requires s.pos <= |s.log| && s.log <= M && a.log == M && a.pos == s.pos && a.budget > 0
    requires
      var r := WorkerLoop(c, e1, policy, input, hist, s);
      M <= r.state.log && |M| < |r.state.log|
    ensures WorkerMissed(M, WorkerLoop(c, e1, policy, input, hist, s), WorkerLoop(d, e2, policy, input, hist, a))
    decreases |s.log| - s.pos + s.budget
  {
    match c.program(input, hist)
    case Finish(_) =>
    case DoTask(over, task, taskInput) =>
      var p := Effective(over, policy);
      var t := TaskLoop(c, e1, p, task, taskInput, 1, s);
      var ta := TaskLoop(d, e2, p, task, taskInput, 1, a);
      var r := WorkerLoop(c, e1, policy, input, hist, s);
      assert t.state.log <= r.state.log;
      if |M| < |t.state.log| {
        TaskMisses(c, d, e1, e2, M, p, task, taskInput, 1, s, a);
        assert c.program(input, hist + [Missed(ta.reply.ret.miss)]) == Finish(PassedOn(ta.reply.ret.miss));
      } else {
        TaskReadsBack(c, d, e1, e2, M, p, task, taskInput, 1, s, a);
        WorkerMisses(c, d, e1, e2, M, policy, input, hist + [t.reply.ret], t.state, ta.state);
      }
  }

  ghost predicate WorkerMissed(M: seq<Chapter>, r: WorkerStep, ra: WorkerStep) {
    && |M| < |r.state.log| && r.state.log[|M|].TaskOutcome?
    && ra.Finished? && ra.result.PassedOn? && MissAtEnd(M, TaskResultMissing, ra.result.miss)
    && ra.state.pos == |M| && ra.state.log == M
  }

  /** How a replay ends on the log M when the next recorded chapter was `next`: before a task's
      outcome with a cache miss; before a job outcome with a cache miss if the job worker
      succeeded, and otherwise with the failure it reached again. */
  ghost predicate JobMissed(M: seq<Chapter>, next: Chapter, stop: Stop) {
    || (stop.MissedAt? && stop.miss.reason == AwaitNotReady && stop.miss.ordinal + 1 == |M|)
    || match next
       case TaskOutcome(_, _, _, _) => stop == MissedAt(Miss(|M|, TaskResultMissing))
       case JobOutcome(_, _, Ok(_)) => stop == MissedAt(Miss(|M|, JobResultMissing))
       case JobOutcome(_, _, Failed(err)) => stop == Ended(Failed(err)) || stop.MissedAt?
       case _ => false
  }

  lemma {:induction false} JobMisses(c: Config, d: Config, e1: Env, e2: Env, M: seq<Chapter>, policy: RunPolicy,
      input: string, attempt: nat, s: State, a: State)
    requires SameWorker(c, d) && d.replay && attempt >= 1 && Quiet(e2, |M|) && PassesMissesOn(c.program)
    requires s.pos <= |s.log| && s.log <= M && a.log == M && a.pos == s.pos && a.budget > 0
    requires
      var r := JobLoop(c, e1, policy, input, attempt, s);
      M <= r.state.log && |M| < |r.state.log|
    ensures JobMissed(M, JobLoop(c, e1, policy, input, attempt, s).state.log[|M|],
                      JobLoop(d, e2, policy, input, attempt, a).stop)
    decreases |s.log| - s.pos, AttemptsLeft(policy.retry, attempt), 2
  {
    var r := JobLoop(c, e1, policy, input, attempt, s);
    if s.pos < |s.log| && s.log[s.pos].JobOutcome? {
      CachedMisses(c, d, e1, e2, M, policy, input, s, a);
    } else {
      var w := WorkerLoop(c, e1, policy, input, [], s);
      assert w.state.log <= r.state.log;
      if s.pos < |M| && M[s.pos].JobOutcome? {
        WorkerStartsWithTask(c, e1, policy, input, s);
        assert r.state.log[s.pos] == M[s.pos];
        assert w.state == s && w.Finished?;
        WrittenMisses(c, d, e1, e2, M, policy, input, attempt, w.result, s, a);
      } else if |M| < |w.state.log| {
        assert r.state.log[|M|] == w.state.log[|M|];
        WorkerMisses(c, d, e1, e2, M, policy, input, [], s, a);
      } else {
        WorkerReadsBack(c, d, e1, e2, M, policy, input, [], s, a);
        SettledMisses(c, d, e1, e2, M, policy, input, attempt, w.result, w.state, On(M, w.state, a));
      }
    }
  }

  lemma {:induction false} SettledMisses(c: Config, d: Config, e1: Env, e2: Env, M: seq<Chapter>, policy: RunPolicy,
      input: string, attempt: nat, result: JobResult, s: State, a: State)
    requires SameWorker(c, d) && d.replay && attempt >= 1 && Quiet(e2, |M|) && PassesMissesOn(c.program)
    requires s.pos <= |s.log| && s.log <= M && a.log == M && a.pos == s.pos && a.budget > 0
    requires
      var r := JobSettle(c, e1, policy, input, attempt, result, s);
      M <= r.state.log && |M| < |r.state.log|
    ensures JobMissed(M, JobSettle(c, e1, policy, input, attempt, result, s).state.log[|M|],
                      JobSettle(d, e2, policy, input, attempt, result, a).stop)
    decreases |s.log| - s.pos, AttemptsLeft(policy.retry, attempt), 1
  {
    if s.pos < |s.log| {
      CachedMisses(c, d, e1, e2, M, policy, input, s, a);
    } else if |s.log| == |M| {
      var r := JobSettle(c, e1, policy, input, attempt, result, s);
      var s' := Write(s, JobOutcome(HashOf(input), attempt, Recorded(result)));
      assert s'.log <= r.state.log && r.state.log[|M|] == s'.log[|M|];
    } else {
      WrittenMisses(c, d, e1, e2, M, policy, input, attempt, result, s, a);
    }
  }

  lemma {:induction false} CachedMisses(c: Config, d: Config, e1: Env, e2: Env, M: seq<Chapter>, policy: RunPolicy,
      input: string, s: State, a: State)
    requires SameWorker(c, d) && d.replay && Quiet(e2, |M|) && PassesMissesOn(c.program)
    requires s.pos < |s.log| && s.log <= M && a.log == M && a.pos == s.pos && a.budget > 0
    requires
      var r := JobCached(c, e1, policy, input, s);
      M <= r.state.log && |M| < |r.state.log|
    ensures JobMissed(M, JobCached(c, e1, policy, input, s).state.log[|M|], JobCached(d, e2, policy, input, a).stop)
    decreases |s.log| - s.pos, 0, 0
  {
    assert M[s.pos] == s.log[s.pos];
    var verdict := ReadJob(policy.retry, input, s.log[s.pos]);
    var s' := s.(pos := s.pos + 1);
    if e2.waiting(s.pos + 1) {
      assert s.pos + 1 == |M|;
    } else {
      JobMisses(c, d, e1, e2, M, policy, input, verdict.attempt, s', a.(pos := s.pos + 1));
    }
  }

  lemma {:induction false} WrittenMisses(c: Config, d: Config, e1: Env, e2: Env, M: seq<Chapter>, policy: RunPolicy,
      input: string, attempt: nat, result: JobResult, s: State, a: State)
    requires SameWorker(c, d) && d.replay && attempt >= 1 && Quiet(e2, |M|) && PassesMissesOn(c.program)
    requires s.pos == |s.log| < |M| && s.log <= M && a.log == M && a.pos == s.pos && a.budget > 0
    requires
      var r := JobSettle(c, e1, policy, input, attempt, result, s);
      M <= r.state.log && |M| < |r.state.log|
    ensures JobMissed(M, JobSettle(c, e1, policy, input, attempt, result, s).state.log[|M|],
                      JobCached(d, e2, policy, input, a).stop)
    decreases 0, AttemptsLeft(policy.retry, attempt), 0
  {
    var r := JobSettle(c, e1, policy, input, attempt, result, s);
    var o := Recorded(result);
    var ch := JobOutcome(HashOf(input), attempt, o);
    JobReaderAgreesWithWriter(policy.retry, input, attempt, o);
    var s' := Write(s, ch);
    assert s'.log <= r.state.log && s'.log[s.pos] == ch;
    assert M[s.pos] == ch && s'.log <= M;
    var verdict := JudgeJob(policy.retry, attempt, o);
    if e2.waiting(s.pos + 1) {
      assert s.pos + 1 == |M|;
    } else {
      JobMisses(c, d, e1, e2, M, policy, input, verdict.attempt, s', a.(pos := s.pos + 1));
    }
  }

  /** Replaying the log cut before any chapter the job's visits wrote. */
  lemma CutLogMisses(c: Config, d: Config, plans: seq<Plan>, e: Env, patience: nat, log: seq<Chapter>, M: seq<Chapter>)
    requires SameJob(c, d, log) && d.replay && PassesMissesOn(c.program)
    requires plans != [] && log != [] && log[0].JobStart? && patience > 0 && Quiet(e, |M|)
    requires log <= M <= LastVisit(c, plans, log).state.log && |M| < |LastVisit(c, plans, log).state.log|
    ensures
      var cut := DoJob(d, e, patience, M);
      && JobMissed(M, LastVisit(c, plans, log).state.log[|M|], cut.stop)
      && cut.state.log == M && cut.state.ran == []
  {
    CrashSimulation(c, plans, log);
    var once: Plan :| CouldHaveBeen(c, once, log, LastVisit(c, plans, log));
    assert M[0] == log[0];
    var policy := JobPolicy(c, log[0]);
    JobMisses(c, d, once.env, e, M, policy, log[0].input, 1, State(log, 1, once.budget, []), State(M, 1, patience, []));
  }
}
