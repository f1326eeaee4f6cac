/**
 The worker runner as the object it is: `storyCounter` and the log move under the `DoTask`
 and `DoJob` loops.  Each method is tied to the function of module Runner that the theorems
 about replay speak of.
 */
module WorkerRunner {
  import opened Retry
  import opened Chapters
  import opened Runner

  class Worker {
    const config: Config
    const env: Env
    var log: seq<Chapter>
    var storyCounter: nat
    var budget: nat
    var ran: seq<nat>
    var jobPolicy: RunPolicy

    constructor (config: Config, env: Env, log: seq<Chapter>, budget: nat)
      ensures this.config == config && this.env == env
      ensures Snapshot() == State(log, 1, budget, []) && jobPolicy == NormalizeRun(config.base)
    {
      this.config := config;
      this.env := env;
      this.log := log;
      this.storyCounter := 1;
      this.budget := budget;
      this.ran := [];
      this.jobPolicy := NormalizeRun(config.base);
    }

    ghost function Snapshot(): State
      reads this
    {
      State(log, storyCounter, budget, ran)
    }

    /** The counter never moves back, and never stays on an ordinal that was consumed. */
    method MarkStoryOrdinalConsumed(ordinal: nat)
      modifies this`storyCounter
      ensures storyCounter > ordinal && storyCounter >= old(storyCounter)
      ensures storyCounter == old(storyCounter) || storyCounter == ordinal + 1
    {
      if ordinal >= storyCounter {
        storyCounter := ordinal + 1;
      }
    }

    method GetChapter(ordinal: nat) returns (ch: Option<Chapter>)
      ensures ch == if ordinal < |log| then Some(log[ordinal]) else None
    {
      if ordinal < |log| {
        return Some(log[ordinal]);
      }
      return None;
    }

    /** The store appends at the next free ordinal only; a spent budget means the visit dies. */
    method PutChapter(ordinal: nat, ch: Chapter) returns (ok: bool)
      modifies this`log, this`budget
      ensures ok <==> (ordinal == |old(log)| && old(budget) > 0)
      ensures ok ==> log == old(log) + [ch] && budget == old(budget) - 1
      ensures !ok ==> log == old(log) && budget == old(budget)
    {
      ok := ordinal == |log| && budget > 0;
      if ok {
        log := log + [ch];
        budget := budget - 1;
      }
    }

    /** One turn of the `DoTask` loop on a recorded outcome. */
    method AnswerFromLog(p: RetryPolicy, task: string, input: string, attempt: nat)
      returns (reply: Option<Reply>, next: nat)
      requires storyCounter < |log|
      modifies this`storyCounter
      ensures storyCounter == old(storyCounter) + 1
      ensures storyCounter <= |log| && log == old(log)
      ensures TaskLoop(config, env, p, task, input, attempt, old(Snapshot())) == Continued(p, task, input, reply, next)
    {
      var ordinal := storyCounter;
      next := attempt;
      MarkStoryOrdinalConsumed(ordinal);
      match Read(p, input, log[ordinal], ordinal)
      case Reply(ret) => return Some(Returned(ret)), next;
      case Again(n) =>
        next := n;
        if !env.waiting(storyCounter) { return None, next; }
        reply := Some(if config.replay then Returned(Missed(Miss(ordinal, AwaitNotReady)))
                      else Halted(Parked(storyCounter)));
    }

    /** One turn of the `DoTask` loop past the end of the log: run the task worker and record. */
    method RunAndRecord(p: RetryPolicy, task: string, input: string, attempt: nat)
      returns (reply: Option<Reply>, next: nat)
      requires storyCounter == |log| && !config.replay && task in config.local
      modifies this`log, this`storyCounter, this`budget, this`ran
      ensures storyCounter <= |log|
      ensures reply.None? ==> storyCounter == |log| && next > attempt && attempt < p.maximumAttempts
      ensures TaskLoop(config, env, p, task, input, attempt, old(Snapshot())) == Continued(p, task, input, reply, next)
    {
      var ordinal := storyCounter;
      next := attempt;
      ran := ran + [ordinal];
      var outcome := env.outcome(ordinal);
      var ok := PutChapter(ordinal, TaskOutcome(task, HashOf(input), attempt, outcome));
      if !ok { return Some(Halted(Cut)), next; }
      MarkStoryOrdinalConsumed(ordinal);
      match Judge(p, attempt, outcome)
      case Reply(ret) => return Some(Returned(ret)), next;
      case Again(n) =>
        next := n;
        reply := if env.waiting(storyCounter) then Some(Halted(Parked(storyCounter))) else None;
    }

    /** What the `DoTask` loop comes to from here: its reply, or the turns still ahead. */
    ghost function Continued(p: RetryPolicy, task: string, input: string, reply: Option<Reply>, next: nat): TaskStep
      requires storyCounter <= |log|
      reads this
    {
      if reply.Some? then TaskStep(reply.value, Snapshot()) else TaskLoop(config, env, p, task, input, next, Snapshot())
    }

    /** Answers from the log while it lasts, then runs the task worker and records what it returns. */
    method DoTask(over: RunPolicy, task: string, input: string) returns (reply: Reply)
      requires storyCounter <= |log|
      modifies this`log, this`storyCounter, this`budget, this`ran
      ensures TaskStep(reply, Snapshot())
           == TaskLoop(config, env, Effective(over, jobPolicy), task, input, 1, old(Snapshot()))
    {
      var retryCfg := NormalizeRun(MergeRun(over, jobPolicy)).retry;
      var attempt: nat := 1;
      ghost var want := TaskLoop(config, env, retryCfg, task, input, 1, Snapshot());
      while true
        invariant storyCounter <= |log|
        invariant TaskLoop(config, env, retryCfg, task, input, attempt, Snapshot()) == want
        decreases |log| - storyCounter, AttemptsLeft(retryCfg, attempt)
      {
        var r: Option<Reply>;
        if storyCounter < |log| {
          r, attempt := AnswerFromLog(retryCfg, task, input, attempt);
        } else if config.replay {
          if budget == 0 { return Halted(Cut); }
          budget := budget - 1;
          return Returned(Missed(Miss(storyCounter, TaskResultMissing)));
        } else if task !in config.local {
          return Halted(External(storyCounter, task, input));
        } else {
          r, attempt := RunAndRecord(retryCfg, task, input, attempt);
        }
        if r.Some? { return r.value; }
      }
    }

    /** The job worker's own code, run until it returns or the visit ends. */
    method RunJobWorker(input: string) returns (result: Option<JobResult>, stop: Stop)
      requires storyCounter <= |log|
      modifies this`log, this`storyCounter, this`budget, this`ran
      ensures
        var want := WorkerLoop(config, env, jobPolicy, input, [], old(Snapshot()));
        match result
        case Some(r) => want == Finished(r, Snapshot())
        case None => want == Stopped(stop, Snapshot())
    {
      var hist: seq<Return> := [];
      stop := Silent;
      ghost var want := WorkerLoop(config, env, jobPolicy, input, [], Snapshot());
      while true
        invariant storyCounter <= |log|
        invariant WorkerLoop(config, env, jobPolicy, input, hist, Snapshot()) == want
        decreases |log| - storyCounter + budget
      {
        match config.program(input, hist)
        case Finish(r) => return Some(r), stop;
        case DoTask(over, task, taskInput) =>
          var reply := DoTask(over, task, taskInput);
          match reply
          case Halted(s) => return None, s;
          case Returned(ret) => hist := hist + [ret];
      }
    }

    /** What the `DoJob` loop comes to from here: why it stopped, or the turns still ahead. */
    ghost function JobContinued(input: string, stop: Option<Stop>, next: nat): Visit
      requires storyCounter <= |log|
      reads this
    {
      if stop.Some? then Visit(stop.value, Snapshot()) else JobLoop(config, env, jobPolicy, input, next, Snapshot())
    }

    /** One turn of the `DoJob` loop on the chapter where a job result would stand. */
    method JobAnswerFromLog(input: string, attempt: nat) returns (stop: Option<Stop>, next: nat)
      requires storyCounter < |log|
      modifies this`storyCounter
      ensures storyCounter <= |log| && (stop.None? ==> storyCounter == old(storyCounter) + 1)
      ensures JobCached(config, env, jobPolicy, input, old(Snapshot())) == JobContinued(input, stop, next)
    {
      var ordinal := storyCounter;
      next := attempt;
      match ReadJob(jobPolicy.retry, input, log[ordinal])
      case Bad => return Some(Broken(ordinal)), next;
      case Terminal(o) =>
        if o.Failed? { return Some(Ended(o)), next; }
        MarkStoryOrdinalConsumed(ordinal);
        stop := Some(if config.replay then Ended(o) else Completed(o));
      case RetryAs(n) =>
        if env.waiting(ordinal + 1) {
          return Some(if config.replay then MissedAt(Miss(ordinal, AwaitNotReady)) else Parked(ordinal + 1)), next;
        }
        MarkStoryOrdinalConsumed(ordinal);
        stop, next := None, n;
    }

    /** One turn of the `DoJob` loop past the end of the log: record the job worker's result. */
    method RecordJobOutcome(input: string, attempt: nat, result: JobResult) returns (stop: Option<Stop>, next: nat)
      requires storyCounter == |log| && !config.replay && !result.Nothing?
      modifies this`log, this`storyCounter, this`budget
      ensures storyCounter == |log|
      ensures stop.None? ==> next > attempt && attempt < jobPolicy.retry.maximumAttempts
      ensures stop.None? ==> |log| == |old(log)| + 1
      ensures JobSettle(config, env, jobPolicy, input, attempt, result, old(Snapshot()))
           == JobContinued(input, stop, next)
    {
      var ordinal := storyCounter;
      next := attempt;
      var outcome := Recorded(result);
      var ok := PutChapter(ordinal, JobOutcome(HashOf(input), attempt, outcome));
      if !ok { return Some(Cut), next; }
      MarkStoryOrdinalConsumed(ordinal);
      assert Snapshot() == Write(old(Snapshot()), JobOutcome(HashOf(input), attempt, outcome));
      match JudgeJob(jobPolicy.retry, attempt, outcome)
      case Terminal(o) => stop := Some(Completed(o));
      case RetryAs(n) =>
        next := n;
        stop := if env.waiting(storyCounter) then Some(Parked(storyCounter)) else None;
    }

    /** Runs the job to the end of this visit. */
    method DoJob() returns (stop: Stop)
      requires storyCounter == 1 && ran == [] && jobPolicy == NormalizeRun(config.base)
      modifies this
      ensures stop == Runner.DoJob(config, env, old(budget), old(log)).stop
      ensures log == Runner.DoJob(config, env, old(budget), old(log)).state.log
      ensures ran == Runner.DoJob(config, env, old(budget), old(log)).state.ran
    {
      var start := GetChapter(0);
      if start.None? { return NoStart; }
      if !start.value.JobStart? { return Broken(0); }
      jobPolicy := JobPolicy(config, start.value);
      stop := JobAttempts(start.value.input);
    }

    /** The `DoJob` loop: job attempts, replayed or run, until one ends the visit. */
    method JobAttempts(input: string) returns (stop: Stop)
      requires storyCounter <= |log|
      modifies this`log, this`storyCounter, this`budget, this`ran
      ensures storyCounter <= |log|
      ensures Visit(stop, Snapshot()) == JobLoop(config, env, jobPolicy, input, 1, old(Snapshot()))
    {
      var attempt: nat := 1;
      ghost var want := JobLoop(config, env, jobPolicy, input, 1, Snapshot());
      while true
        invariant storyCounter <= |log|
        invariant JobLoop(config, env, jobPolicy, input, attempt, Snapshot()) == want
        decreases |log| - storyCounter, AttemptsLeft(jobPolicy.retry, attempt)
      {
        var ended: Option<Stop>;
        if storyCounter < |log| && log[storyCounter].JobOutcome? {
          ended, attempt := JobAnswerFromLog(input, attempt);
        } else {
          var result, why := RunJobWorker(input);
          if result.None? { return why; }
          if result.value.Nothing? { return Silent; }
          if storyCounter < |log| {
            ended, attempt := JobAnswerFromLog(input, attempt);
          } else if config.replay {
            return ReplayEnd(result.value, storyCounter);
          } else {
            ended, attempt := RecordJobOutcome(input, attempt, result.value);
          }
        }
        if ended.Some? { return ended.value; }
      }
    }
  }
}
