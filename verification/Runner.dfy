/**
 The vocabulary of a job's chapter log.  An input hash is the input behind a fixed tag, so
 it is never empty and two inputs hash alike only when they are equal.
 */
module Chapters {
  import opened Retry

  datatype Outcome = Ok(data: string) | Failed(err: TaskError)

  datatype Chapter =
    | JobStart(jobType: string, input: string, policy: Option<RunPolicy>)
    | TaskOutcome(task: string, hash: string, attempt: int, outcome: Outcome)
    | RestartExtra(hash: string, attempt: int, outcome: Outcome)
    | JobOutcome(hash: string, attempt: int, outcome: Outcome)

  function HashOf(input: string): (h: string)
    ensures h != ""
  {
    "sha256:" + input
  }

  lemma HashIsInjective(a: string, b: string)
    ensures HashOf(a) == HashOf(b) <==> a == b
  {
    assert HashOf(a)[7..] == a && HashOf(b)[7..] == b;
  }

  /** The attempt number a reader takes from a chapter. */
  function AttemptOf(attempt: int): (a: nat)
    ensures a >= 1
  {
    if attempt <= 0 then 1 else attempt
  }
}

/**
 Log replay and retry (pkg/workflow/worker_runner.go).

 A job worker is a deterministic program: the job input and the results of its earlier
 `DoTask` calls determine what it does next.  One visit of a worker to a job is a run of
 `DoJob` over the log as it stands.  `Env` holds what a visit cannot know in advance: what
 a task worker returns at each ordinal, and which recorded back-offs have not elapsed.
 `budget` is the number of chapters the visit writes before it dies.
 */
module Runner {
  import opened Retry
  import opened Chapters

  datatype MissReason = TaskResultMissing | JobResultMissing | AwaitNotReady

  datatype Miss = Miss(ordinal: nat, reason: MissReason)

  /** What one `DoTask` call returns to the job worker. */
  datatype Return =
    | Value(data: string)
    | Error(err: TaskError)
    | Unexpected(ordinal: nat)
    | NoHash(ordinal: nat)
    | Mismatch(ordinal: nat)
    | Missed(miss: Miss)

  datatype JobResult =
    | Success(data: string)
    | Failure(err: TaskError)
    | PassedOn(miss: Miss)
    | Nothing

  datatype Action =
    | DoTask(policy: RunPolicy, task: string, input: string)
    | Finish(result: JobResult)

  type Program = (string, seq<Return>) -> Action

  datatype Config = Config(program: Program, local: set<string>, base: RunPolicy, replay: bool)

  datatype Env = Env(outcome: nat -> Outcome, waiting: nat -> bool)

  datatype State = State(log: seq<Chapter>, pos: nat, budget: nat, ran: seq<nat>)

  /** Why a visit ended.
      Completed: the outcome is in the log and the lease was completed with it.
      Ended: `DoJob` returned the outcome and left the lease alone.
      Cut: the visit died before its next chapter was written.
      Parked: it rescheduled itself until a back-off elapses.
      External: it rescheduled itself for another worker to perform a task. */
  datatype Stop =
    | Completed(outcome: Outcome)
    | Ended(outcome: Outcome)
    | MissedAt(miss: Miss)
    | Broken(ordinal: nat)
    | Cut
    | Parked(ordinal: nat)
    | External(ordinal: nat, task: string, input: string)
    | Silent
    | NoStart

  datatype Reply = Returned(ret: Return) | Halted(stop: Stop)

  datatype TaskStep = TaskStep(reply: Reply, state: State)

  datatype WorkerStep = Finished(result: JobResult, state: State) | Stopped(stop: Stop, state: State)

  datatype Visit = Visit(stop: Stop, state: State)

  /** What every stretch of a visit keeps: the log only grows, a live visit pays one unit of
      budget for each chapter, a replay writes nothing and
      runs no worker, and whoever wrote stands at the end. */
  ghost predicate Advances(c: Config, s: State, t: State) {
    && s.log <= t.log
    && s.pos <= t.pos <= |t.log|
    && (c.replay ==> t.log == s.log && t.ran == s.ran && t.budget <= s.budget)
    && (!c.replay ==> |t.log| + t.budget == |s.log| + s.budget)
    && (t.log != s.log ==> t.pos == |t.log|)
  }

  /** The second half of the measure both retry loops descend on; the first is the log left. */
  function AttemptsLeft(p: RetryPolicy, attempt: nat): nat {
    if attempt < p.maximumAttempts then p.maximumAttempts - attempt else 0
  }

  /** What `DoTask` does with an attempt's outcome: hand it to the job worker or try again. */
  datatype Verdict = Reply(ret: Return) | Again(attempt: nat)

  /** An outcome that a task worker has just produced. */
  function Judge(p: RetryPolicy, attempt: nat, o: Outcome): Verdict {
    match o
    case Ok(data) => Reply(Value(data))
    case Failed(err) =>
      if IsRetryable(err, p) && attempt < p.maximumAttempts then Again(attempt + 1) else Reply(Error(err))
  }

  /** A chapter found at `ordinal` where `DoTask` with this input looks for its outcome. */
  function Read(p: RetryPolicy, input: string, ch: Chapter, ordinal: nat): Verdict {
    if !ch.TaskOutcome? && !ch.RestartExtra? then Reply(Unexpected(ordinal))
    else if ch.hash == "" then Reply(NoHash(ordinal))
    else if ch.hash != HashOf(input) then Reply(Mismatch(ordinal))
    else match ch.outcome
      case Ok(data) => Reply(Value(data))
      case Failed(err) =>
        var prior := AttemptOf(ch.attempt);
        if !IsRetryable(err, p) || prior >= p.maximumAttempts then Reply(Error(err)) else Again(prior + 1)
  }

  /** The `DoTask` loop from attempt `attempt` on, under the effective retry policy `p`. */
  function TaskLoop(c: Config, e: Env, p: RetryPolicy, task: string, input: string, attempt: nat, s: State):
    (r: TaskStep)
    requires s.pos <= |s.log|
    ensures Advances(c, s, r.state)
    ensures r.reply.Returned? ==> s.pos < r.state.pos || r.state.budget < s.budget
    decreases |s.log| - s.pos, AttemptsLeft(p, attempt)
  {
    if s.pos < |s.log| then
      var t := s.(pos := s.pos + 1);
      match Read(p, input, s.log[s.pos], s.pos)
      case Reply(ret) => TaskStep(Returned(ret), t)
      case Again(next) =>
        if !e.waiting(t.pos) then TaskLoop(c, e, p, task, input, next, t)
        else if c.replay then TaskStep(Returned(Missed(Miss(s.pos, AwaitNotReady))), t)
        else TaskStep(Halted(Parked(t.pos)), t)
    else if c.replay then
      if s.budget == 0 then TaskStep(Halted(Cut), s)
      else TaskStep(Returned(Missed(Miss(s.pos, TaskResultMissing))), s.(budget := s.budget - 1))
    else if task !in c.local then TaskStep(Halted(External(s.pos, task, input)), s)
    else
      var t := s.(ran := s.ran + [s.pos]);
      if t.budget == 0 then TaskStep(Halted(Cut), t)
      else
        var u := Write(t, TaskOutcome(task, HashOf(input), attempt, e.outcome(t.pos)));
        match Judge(p, attempt, e.outcome(t.pos))
        case Reply(ret) => TaskStep(Returned(ret), u)
        case Again(next) =>
          if e.waiting(u.pos) then TaskStep(Halted(Parked(u.pos)), u)
          else TaskLoop(c, e, p, task, input, next, u)
  }

  function Write(s: State, ch: Chapter): State
    requires s.budget > 0
  {
    State(s.log + [ch], s.pos + 1, s.budget - 1, s.ran)
  }

  function Effective(over: RunPolicy, base: RunPolicy): (p: RetryPolicy)
    ensures p.maximumAttempts >= 1
  {
    NormalizeRun(MergeRun(over, base)).retry
  }

  /** One run of the job worker's own code, from the results `hist` of its earlier calls on. */
  function WorkerLoop(c: Config, e: Env, policy: RunPolicy, input: string, hist: seq<Return>, s: State): (r: WorkerStep)
    requires s.pos <= |s.log|
    ensures Advances(c, s, r.state)
    decreases |s.log| - s.pos + s.budget
  {
    match c.program(input, hist)
    case Finish(result) => Finished(result, s)
    case DoTask(over, task, taskInput) =>
      var step := TaskLoop(c, e, Effective(over, policy), task, taskInput, 1, s);
      match step.reply
      case Halted(stop) => Stopped(stop, step.state)
      case Returned(ret) => WorkerLoop(c, e, policy, input, hist + [ret], step.state)
  }

  /** What `DoJob` does with a job attempt's recorded outcome. */
  datatype JobVerdict = Bad | Terminal(outcome: Outcome) | RetryAs(attempt: nat)

  /** `checkCachedJobResult` for a chapter that exists where a job result may stand. */
  function ReadJob(p: RetryPolicy, input: string, ch: Chapter): JobVerdict {
    if !ch.JobOutcome? then Bad
    else if ch.hash != "" && ch.hash != HashOf(input) then Bad
    else match ch.outcome
      case Ok(_) => Terminal(ch.outcome)
      case Failed(err) =>
        var prior := AttemptOf(ch.attempt);
        if !IsRetryable(err, p) || prior >= p.maximumAttempts then Terminal(ch.outcome) else RetryAs(prior + 1)
  }

  /** An outcome that the job worker has just produced. */
  function JudgeJob(p: RetryPolicy, attempt: nat, o: Outcome): JobVerdict {
    if o.Ok? || !IsRetryable(o.err, p) || attempt >= p.maximumAttempts then Terminal(o) else RetryAs(attempt + 1)
  }

  /** What the job chapter holds for a result.  An error outside the three recorded kinds is
      stored as an application failure. */
  function Recorded(r: JobResult): Outcome
    requires !r.Nothing?
  {
    match r
    case Success(d) => Ok(d)
    case Failure(err) => Failed(err)
    case PassedOn(_) => Failed(App("replay cache miss"))
  }

  /** How a visit ends on a recorded terminal job result: a success completes the lease; a
      failure is returned early, with the lease left alone. */
  function OnTerminal(c: Config, o: Outcome, s: State): Visit
  {
    if o.Failed? then Visit(Ended(o), s)
    else Visit(if c.replay then Ended(o) else Completed(o), s.(pos := s.pos + 1))
  }

  /** The `DoJob` loop from job attempt `attempt` on. */
  function JobLoop(c: Config, e: Env, policy: RunPolicy, input: string, attempt: nat, s: State): (r: Visit)
    requires s.pos <= |s.log|
    ensures Advances(c, s, r.state)
    decreases |s.log| - s.pos, AttemptsLeft(policy.retry, attempt), 2
  {
    if s.pos < |s.log| && s.log[s.pos].JobOutcome? then
      JobCached(c, e, policy, input, s)
    else
      match WorkerLoop(c, e, policy, input, [], s)
      case Stopped(stop, t) => Visit(stop, t)
      case Finished(result, t) => JobSettle(c, e, policy, input, attempt, result, t)
  }

  /** `DoJob` once the job worker has returned: answer from the log, or record the outcome. */
  function JobSettle(c: Config, e: Env, policy: RunPolicy, input: string, attempt: nat, result: JobResult, s: State):
    (r: Visit)
    requires s.pos <= |s.log|
    ensures Advances(c, s, r.state)
    decreases |s.log| - s.pos, AttemptsLeft(policy.retry, attempt), 1
  {
    if result.Nothing? then Visit(Silent, s)
    else if s.pos < |s.log| then JobCached(c, e, policy, input, s)
    else if c.replay then Visit(ReplayEnd(result, s.pos), s)
    else if s.budget == 0 then Visit(Cut, s)
    else
      var u := Write(s, JobOutcome(HashOf(input), attempt, Recorded(result)));
      match JudgeJob(policy.retry, attempt, Recorded(result))
      case Terminal(o) => Visit(Completed(o), u)
      case RetryAs(next) =>
        if e.waiting(u.pos) then Visit(Parked(u.pos), u)
        else JobLoop(c, e, policy, input, next, u)
  }

  /** `DoJob` on the chapter it finds where the result of a job attempt would stand. */
  function JobCached(c: Config, e: Env, policy: RunPolicy, input: string, s: State): (r: Visit)
    requires s.pos < |s.log|
    ensures Advances(c, s, r.state)
    decreases |s.log| - s.pos, 0, 0
  {
    match ReadJob(policy.retry, input, s.log[s.pos])
    case Bad => Visit(Broken(s.pos), s)
    case Terminal(o) => OnTerminal(c, o, s)
    case RetryAs(next) =>
      if !e.waiting(s.pos + 1) then JobLoop(c, e, policy, input, next, s.(pos := s.pos + 1))
      else if c.replay then Visit(MissedAt(Miss(s.pos, AwaitNotReady)), s)
      else Visit(Parked(s.pos + 1), s)
  }

  /** A replay that ran the job worker to its end and found no recorded job result. */
  function ReplayEnd(result: JobResult, ordinal: nat): Stop
    requires !result.Nothing?
  {
    match result
    case Success(_) => MissedAt(Miss(ordinal, JobResultMissing))
    case Failure(err) => Ended(Failed(err))
    case PassedOn(miss) => MissedAt(miss)
  }

  /** `DoJob`: load the start chapter, settle the policy, and loop. */
  function DoJob(c: Config, e: Env, budget: nat, log: seq<Chapter>): (r: Visit)
    ensures log <= r.state.log
    ensures c.replay ==> r.state.log == log
  {
    if log == [] then Visit(NoStart, State(log, 0, budget, []))
    else if !log[0].JobStart? then Visit(Broken(0), State(log, 0, budget, []))
    else JobLoop(c, e, JobPolicy(c, log[0]), log[0].input, 1, State(log, 1, budget, []))
  }

  function JobPolicy(c: Config, start: Chapter): RunPolicy
    requires start.JobStart?
  {
    if start.policy.Some? then MergeRun(start.policy.value, NormalizeRun(c.base)) else NormalizeRun(c.base)
  }
}
