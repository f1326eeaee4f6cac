/**
 Interrupted runs against uninterrupted ones.

 A first visit (environment e1) has produced a log of which M is a prefix.  A second visit
 (environment e2) starts over on M.  The lemmas walk that second visit in step with a single
 visit that starts where the first one did and sees, below |M|, the outcomes recorded in M.
 */
module Resume {
  import opened Retry
  import opened Chapters
  import opened Runner

  function OutcomeAt(log: seq<Chapter>, n: nat): Outcome {
    if n < |log| && !log[n].JobStart? then log[n].outcome else Ok("")
  }

  /** The environment of the single visit: the recorded outcomes below |M|, e beyond. */
  function Splice(M: seq<Chapter>, e: Env): Env {
    Env((n: nat) => if n < |M| then OutcomeAt(M, n) else e.outcome(n),
        (n: nat) => n >= |M| && e.waiting(n))
  }

  /** Equal up to the record of which ordinals a worker ran for. */
  ghost predicate Alike(a: State, b: State) {
    a.log == b.log && a.pos == b.pos && a.budget == b.budget
  }

  /** The visit on M (a) against the single visit (b), which may still be rebuilding M. */
  ghost predicate Lockstep(M: seq<Chapter>, a: State, b: State) {
    && M <= a.log && b.log <= a.log && a.pos == b.pos
    && a.log == (if |b.log| < |M| then M else b.log)
    && |a.log| + a.budget == |b.log| + b.budget
  }

  /** The visit on M stopped at a back-off inside M: it wrote nothing. */
  ghost predicate ParkedInside(M: seq<Chapter>, stop: Stop, log: seq<Chapter>) {
    stop.Parked? && stop.ordinal < |M| && log == M
  }

  /** A reader of a chapter takes the decision its writer took. */
  lemma ReaderAgreesWithWriter(p: RetryPolicy, task: string, input: string, attempt: nat, o: Outcome, ordinal: nat)
    requires attempt >= 1
    ensures Read(p, input, TaskOutcome(task, HashOf(input), attempt, o), ordinal) == Judge(p, attempt, o)
  {
  }

  /** A suspended visit stores its policy in the job row, and the next worker starts from that as
      its base: it arrives at the same policy, with the start chapter's settings on top. */
  lemma PolicySurvivesSuspension(c: Config, start: Chapter)
    requires start.JobStart?
    ensures JobPolicy(c.(base := JobPolicy(c, start)), start) == JobPolicy(c, start)
    ensures start.policy.Some? && SetsEverything(start.policy.value) ==>
      JobPolicy(c, start) == NormalizeRun(start.policy.value)
    ensures start.policy.None? ==> JobPolicy(c, start) == NormalizeRun(c.base)
  {
    if start.policy.Some? {
      EffectivePolicyIsStable(start.policy.value, NormalizeRun(c.base));
      OverridesTakePrecedence(start.policy.value, NormalizeRun(c.base));
    }
  }

  // The base policy matters only through the policy the job arrives at.

  lemma {:induction false} TaskIgnoresBase(c: Config, d: Config, e: Env, p: RetryPolicy, task: string, input: string,
      attempt: nat, s: State)
    requires d == c.(base := d.base) && s.pos <= |s.log|
    ensures TaskLoop(d, e, p, task, input, attempt, s) == TaskLoop(c, e, p, task, input, attempt, s)
    decreases |s.log| - s.pos, AttemptsLeft(p, attempt)
  {
    if s.pos < |s.log| {
      var verdict := Read(p, input, s.log[s.pos], s.pos);
      if verdict.Again? && !e.waiting(s.pos + 1) {
        TaskIgnoresBase(c, d, e, p, task, input, verdict.attempt, s.(pos := s.pos + 1));
      }
    } else if !c.replay && task in c.local && s.budget > 0 {
      var u := Write(s.(ran := s.ran + [s.pos]), TaskOutcome(task, HashOf(input), attempt, e.outcome(s.pos)));
      var verdict := Judge(p, attempt, e.outcome(s.pos));
      if verdict.Again? && !e.waiting(u.pos) {
        TaskIgnoresBase(c, d, e, p, task, input, verdict.attempt, u);
      }
    }
  }

  lemma {:induction false} WorkerIgnoresBase(c: Config, d: Config, e: Env, policy: RunPolicy, input: string,
      hist: seq<Return>, s: State)
    requires d == c.(base := d.base) && s.pos <= |s.log|
    ensures WorkerLoop(d, e, policy, input, hist, s) == WorkerLoop(c, e, policy, input, hist, s)
    decreases |s.log| - s.pos + s.budget
  {
    match c.program(input, hist)
    case Finish(_) =>
    case DoTask(over, task, taskInput) =>
      TaskIgnoresBase(c, d, e, Effective(over, policy), task, taskInput, 1, s);
      var t := TaskLoop(c, e, Effective(over, policy), task, taskInput, 1, s);
      if t.reply.Returned? {
        WorkerIgnoresBase(c, d, e, policy, input, hist + [t.reply.ret], t.state);
      }
  }

  lemma {:induction false} JobIgnoresBase(c: Config, d: Config, e: Env, policy: RunPolicy, input: string, attempt: nat,
      s: State)
    requires d == c.(base := d.base) && s.pos <= |s.log|
    ensures JobLoop(d, e, policy, input, attempt, s) == JobLoop(c, e, policy, input, attempt, s)
    decreases |s.log| - s.pos, AttemptsLeft(policy.retry, attempt), 2
  {
    if s.pos < |s.log| && s.log[s.pos].JobOutcome? {
      CachedIgnoresBase(c, d, e, policy, input, s);
    } else {
      WorkerIgnoresBase(c, d, e, policy, input, [], s);
      var w := WorkerLoop(c, e, policy, input, [], s);
      if w.Finished? && !w.result.Nothing? {
        if w.state.pos < |w.state.log| {
          CachedIgnoresBase(c, d, e, policy, input, w.state);
        } else if !c.replay && w.state.budget > 0 {
          SettleAgain(c, e, policy, input, attempt, w.result, w.state);
          SettleAgain(d, e, policy, input, attempt, w.result, w.state);
          var u := Write(w.state, JobOutcome(HashOf(input), attempt, Recorded(w.result)));
          var verdict := JudgeJob(policy.retry, attempt, Recorded(w.result));
          if verdict.RetryAs? && !e.waiting(u.pos) {
            JobIgnoresBase(c, d, e, policy, input, verdict.attempt, u);
          }
        }
      }
    }
  }

  lemma {:induction false} CachedIgnoresBase(c: Config, d: Config, e: Env, policy: RunPolicy, input: string, s: State)
    requires d == c.(base := d.base) && s.pos < |s.log|
    ensures JobCached(d, e, policy, input, s) == JobCached(c, e, policy, input, s)
    decreases |s.log| - s.pos, 0, 0
  {
    var verdict := ReadJob(policy.retry, input, s.log[s.pos]);
    if verdict.RetryAs? && !e.waiting(s.pos + 1) {
      CachedAgain(c, e, policy, input, s);
      CachedAgain(d, e, policy, input, s);
      JobIgnoresBase(c, d, e, policy, input, verdict.attempt, s.(pos := s.pos + 1));
    }
  }

  /** Visits that start from different base policies but arrive at one job policy, as the visits
      before and after a suspension do, are the same visits. */
  lemma OnlyTheJobPolicyMatters(c: Config, d: Config, e: Env, budget: nat, log: seq<Chapter>)
    requires d == c.(base := d.base)
    requires log != [] && log[0].JobStart? ==> JobPolicy(d, log[0]) == JobPolicy(c, log[0])
    ensures DoJob(d, e, budget, log) == DoJob(c, e, budget, log)
  {
    if log != [] && log[0].JobStart? {
      JobIgnoresBase(c, d, e, JobPolicy(c, log[0]), log[0].input, 1, State(log, 1, budget, []));
    }
  }

  // Beyond |M| the spliced environment is e itself.

  lemma {:induction false} TaskBeyond(c: Config, e: Env, M: seq<Chapter>, p: RetryPolicy, task: string, input: string,
      attempt: nat, a: State, b: State)
    requires Alike(a, b) && a.pos == |a.log| && |M| <= |a.log|
    ensures
      var ra := TaskLoop(c, e, p, task, input, attempt, a);
      var rb := TaskLoop(c, Splice(M, e), p, task, input, attempt, b);
      ra.reply == rb.reply && Alike(ra.state, rb.state) && ra.state.pos == |ra.state.log|
    decreases AttemptsLeft(p, attempt)
  {
    if !c.replay && task in c.local && a.budget > 0 {
      var o := e.outcome(a.pos);
      var ch := TaskOutcome(task, HashOf(input), attempt, o);
      var u := Write(a.(ran := a.ran + [a.pos]), ch);
      var v := Write(b.(ran := b.ran + [b.pos]), ch);
      var verdict := Judge(p, attempt, o);
      if verdict.Again? && !e.waiting(u.pos) {
        TaskBeyond(c, e, M, p, task, input, verdict.attempt, u, v);
      }
    }
  }

  // Inside M the single visit rebuilds what the first visit wrote and the second one reads.

  /** r: the first visit, ra: the visit on M, rb: the single visit. */
  ghost predicate TaskInStep(M: seq<Chapter>, r: TaskStep, ra: TaskStep, rb: TaskStep) {
    || (ra.reply.Halted? && ParkedInside(M, ra.reply.stop, ra.state.log))
    || (&& ra.reply == rb.reply && Lockstep(M, ra.state, rb.state)
        && (|rb.state.log| < |M| ==> rb.reply == r.reply && rb.state.log == r.state.log && rb.state.pos == r.state.pos))
  }

  // One turn of the loop.

  lemma TaskReads(c: Config, e: Env, p: RetryPolicy, task: string, input: string, attempt: nat, s: State)
    requires s.pos < |s.log|
    ensures TaskLoop(c, e, p, task, input, attempt, s) ==
      var u := s.(pos := s.pos + 1);
      match Read(p, input, s.log[s.pos], s.pos)
      case Reply(ret) => TaskStep(Returned(ret), u)
      case Again(next) =>
        if !e.waiting(u.pos) then TaskLoop(c, e, p, task, input, next, u)
        else if c.replay then TaskStep(Returned(Missed(Miss(s.pos, AwaitNotReady))), u)
        else TaskStep(Halted(Parked(u.pos)), u)
  {
  }

  lemma TaskRuns(c: Config, e: Env, p: RetryPolicy, task: string, input: string, attempt: nat, s: State)
    requires s.pos == |s.log| && !c.replay && task in c.local && s.budget > 0
    ensures TaskLoop(c, e, p, task, input, attempt, s) ==
      var u := Write(s.(ran := s.ran + [s.pos]), TaskOutcome(task, HashOf(input), attempt, e.outcome(s.pos)));
      match Judge(p, attempt, e.outcome(s.pos))
      case Reply(ret) => TaskStep(Returned(ret), u)
      case Again(next) =>
        if e.waiting(u.pos) then TaskStep(Halted(Parked(u.pos)), u) else TaskLoop(c, e, p, task, input, next, u)
  {
  }

  lemma TaskStops(c: Config, e: Env, p: RetryPolicy, task: string, input: string, attempt: nat, s: State)
    requires s.pos == |s.log| && (c.replay || task !in c.local || s.budget == 0)
    ensures TaskLoop(c, e, p, task, input, attempt, s) ==
      if c.replay && s.budget == 0 then TaskStep(Halted(Cut), s)
      else if c.replay then TaskStep(Returned(Missed(Miss(s.pos, TaskResultMissing))), s.(budget := s.budget - 1))
      else if task !in c.local then TaskStep(Halted(External(s.pos, task, input)), s)
      else TaskStep(Halted(Cut), s.(ran := s.ran + [s.pos]))
  {
  }

  ghost predicate TaskReaches(M: seq<Chapter>, r: TaskStep) {
    M <= r.state.log || (r.reply.Returned? && r.state.log <= M)
  }

  lemma {:induction false} TaskResumes(c: Config, e1: Env, e2: Env, M: seq<Chapter>, p: RetryPolicy, task: string,
      input: string, attempt: nat, s: State, a: State, b: State)
    requires !c.replay && attempt >= 1
    requires s.pos <= |s.log| <= |M| && s.log == b.log && s.pos == b.pos && Lockstep(M, a, b)
    requires TaskReaches(M, TaskLoop(c, e1, p, task, input, attempt, s))
    ensures TaskInStep(M, TaskLoop(c, e1, p, task, input, attempt, s), TaskLoop(c, e2, p, task, input, attempt, a),
                       TaskLoop(c, Splice(M, e2), p, task, input, attempt, b))
    decreases |s.log| - s.pos, AttemptsLeft(p, attempt), 1
  {
    if s.pos < |s.log| {
      TaskResumesReading(c, e1, e2, M, p, task, input, attempt, s, a, b);
    } else if |s.log| == |M| {
      assert a.log == b.log == M;
      TaskBeyond(c, e2, M, p, task, input, attempt, a, b);
    } else {
      TaskResumesWriting(c, e1, e2, M, p, task, input, attempt, s, a, b);
    }
  }

  lemma {:induction false} TaskResumesReading(c: Config, e1: Env, e2: Env, M: seq<Chapter>, p: RetryPolicy,
      task: string, input: string, attempt: nat, s: State, a: State, b: State)
    requires !c.replay && attempt >= 1
    requires s.pos < |s.log| <= |M| && s.log == b.log && s.pos == b.pos && Lockstep(M, a, b)
    requires TaskReaches(M, TaskLoop(c, e1, p, task, input, attempt, s))
    ensures TaskInStep(M, TaskLoop(c, e1, p, task, input, attempt, s), TaskLoop(c, e2, p, task, input, attempt, a),
                       TaskLoop(c, Splice(M, e2), p, task, input, attempt, b))
    decreases |s.log| - s.pos, 0, 0
  {
    hide TaskLoop, IsRetryable;
    TaskReads(c, e1, p, task, input, attempt, s);
    TaskReads(c, e2, p, task, input, attempt, a);
    TaskReads(c, Splice(M, e2), p, task, input, attempt, b);
    assert a.log[s.pos] == s.log[s.pos];
    var verdict := Read(p, input, s.log[s.pos], s.pos);
    var a' := a.(pos := s.pos + 1);
    var b' := b.(pos := s.pos + 1);
    if verdict.Again? && !e2.waiting(s.pos + 1) {
      if e1.waiting(s.pos + 1) {
        assert s.log == M;
        TaskResumes(c, Splice(M, e2), e2, M, p, task, input, verdict.attempt, b', a', b');
      } else {
        TaskResumes(c, e1, e2, M, p, task, input, verdict.attempt, s.(pos := s.pos + 1), a', b');
      }
    }
  }

  lemma {:induction false} TaskResumesWriting(c: Config, e1: Env, e2: Env, M: seq<Chapter>, p: RetryPolicy,
      task: string, input: string, attempt: nat, s: State, a: State, b: State)
    requires !c.replay && attempt >= 1
    requires s.pos == |s.log| < |M| && s.log == b.log && s.pos == b.pos && Lockstep(M, a, b)
    requires TaskReaches(M, TaskLoop(c, e1, p, task, input, attempt, s))
    ensures TaskInStep(M, TaskLoop(c, e1, p, task, input, attempt, s), TaskLoop(c, e2, p, task, input, attempt, a),
                       TaskLoop(c, Splice(M, e2), p, task, input, attempt, b))
    decreases 0, AttemptsLeft(p, attempt), 0
  {
    var r := TaskLoop(c, e1, p, task, input, attempt, s);
    assert task in c.local && s.budget > 0;
    hide TaskLoop, IsRetryable;
    TaskRuns(c, e1, p, task, input, attempt, s);
    TaskReads(c, e2, p, task, input, attempt, a);
    TaskRuns(c, Splice(M, e2), p, task, input, attempt, b);
    var o := e1.outcome(s.pos);
    var ch := TaskOutcome(task, HashOf(input), attempt, o);
    ReaderAgreesWithWriter(p, task, input, attempt, o, s.pos);
    var s' := Write(s.(ran := s.ran + [s.pos]), ch);
    var verdict := Judge(p, attempt, o);
    if verdict.Again? && !e1.waiting(s'.pos) {
      assert s'.log <= TaskLoop(c, e1, p, task, input, verdict.attempt, s').state.log;
    }
    assert verdict.Reply? || e1.waiting(s'.pos) ==> r.state == s';
    assert s'.log <= r.state.log;
    assert s'.log[s.pos] == ch;
    assert M[s.pos] == ch && s'.log <= M;
    assert OutcomeAt(M, s.pos) == ch.outcome;
    assert Splice(M, e2).outcome(s.pos) == OutcomeAt(M, s.pos);
    var b' := Write(b.(ran := b.ran + [s.pos]), ch);
    var a' := a.(pos := s.pos + 1);
    assert Lockstep(M, a', b');
    if verdict.Again? && !e2.waiting(s.pos + 1) {
      if e1.waiting(s.pos + 1) {
        assert s'.log == M;
        TaskBeyond(c, e2, M, p, task, input, verdict.attempt, a', b');
      } else {
        TaskResumes(c, e1, e2, M, p, task, input, verdict.attempt, s', a', b');
      }
    }
  }

  ghost predicate SameEnd(ra: WorkerStep, rb: WorkerStep) {
    match ra
    case Finished(result, _) => rb.Finished? && rb.result == result
    case Stopped(stop, _) => rb.Stopped? && rb.stop == stop
  }

  lemma {:induction false} WorkerBeyond(c: Config, e: Env, M: seq<Chapter>, policy: RunPolicy, input: string,
      hist: seq<Return>, a: State, b: State)
    requires Alike(a, b) && a.pos == |a.log| && |M| <= |a.log|
    ensures
      var ra := WorkerLoop(c, e, policy, input, hist, a);
      var rb := WorkerLoop(c, Splice(M, e), policy, input, hist, b);
      SameEnd(ra, rb) && Alike(ra.state, rb.state) && ra.state.pos == |ra.state.log|
    decreases a.budget
  {
    match c.program(input, hist)
    case Finish(_) =>
    case DoTask(over, task, taskInput) =>
      var p := Effective(over, policy);
      TaskBeyond(c, e, M, p, task, taskInput, 1, a, b);
      var ra := TaskLoop(c, e, p, task, taskInput, 1, a);
      var rb := TaskLoop(c, Splice(M, e), p, task, taskInput, 1, b);
      if ra.reply.Returned? {
        WorkerBeyond(c, e, M, policy, input, hist + [ra.reply.ret], ra.state, rb.state);
      }
  }

  ghost predicate WorkerInStep(M: seq<Chapter>, r: WorkerStep, ra: WorkerStep, rb: WorkerStep) {
    || (ra.Stopped? && ParkedInside(M, ra.stop, ra.state.log))
    || (&& SameEnd(ra, rb) && Lockstep(M, ra.state, rb.state)
        && (|rb.state.log| < |M| ==> SameEnd(rb, r) && rb.state.log == r.state.log && rb.state.pos == r.state.pos))
  }

  ghost predicate WorkerReaches(M: seq<Chapter>, r: WorkerStep) {
    M <= r.state.log || (r.Finished? && r.state.log <= M)
  }

  lemma WorkerAgain(c: Config, e: Env, policy: RunPolicy, input: string, hist: seq<Return>, s: State)
    requires s.pos <= |s.log| && c.program(input, hist).DoTask?
    ensures
      var call := c.program(input, hist);
      var t := TaskLoop(c, e, Effective(call.policy, policy), call.task, call.input, 1, s);
      WorkerLoop(c, e, policy, input, hist, s) ==
        match t.reply
        case Halted(stop) => Stopped(stop, t.state)
        case Returned(ret) => WorkerLoop(c, e, policy, input, hist + [ret], t.state)
  {
  }

  lemma {:induction false} WorkerResumes(c: Config, e1: Env, e2: Env, M: seq<Chapter>, policy: RunPolicy,
      input: string, hist: seq<Return>, s: State, a: State, b: State)
    requires !c.replay
    requires s.pos <= |s.log| <= |M| && s.log == b.log && s.pos == b.pos && Lockstep(M, a, b)
    requires WorkerReaches(M, WorkerLoop(c, e1, policy, input, hist, s))
    ensures WorkerInStep(M, WorkerLoop(c, e1, policy, input, hist, s), WorkerLoop(c, e2, policy, input, hist, a),
                         WorkerLoop(c, Splice(M, e2), policy, input, hist, b))
    decreases |M| - s.pos + a.budget
  {
    match c.program(input, hist)
    case Finish(_) =>
    case DoTask(over, task, taskInput) =>
      var p := Effective(over, policy);
      var t := TaskLoop(c, e1, p, task, taskInput, 1, s);
      var ta := TaskLoop(c, e2, p, task, taskInput, 1, a);
      var tb := TaskLoop(c, Splice(M, e2), p, task, taskInput, 1, b);
      WorkerAgain(c, e1, policy, input, hist, s);
      WorkerAgain(c, e2, policy, input, hist, a);
      WorkerAgain(c, Splice(M, e2), policy, input, hist, b);
      TaskResumes(c, e1, e2, M, p, task, taskInput, 1, s, a, b);
      if ta.reply.Returned? {
        var hist' := hist + [ta.reply.ret];
        if |tb.state.log| < |M| {
          WorkerResumes(c, e1, e2, M, policy, input, hist', t.state, ta.state, tb.state);
        } else if tb.state.log == M {
          WorkerResumes(c, Splice(M, e2), e2, M, policy, input, hist', tb.state, ta.state, tb.state);
        } else {
          WorkerBeyond(c, e2, M, policy, input, hist', ta.state, tb.state);
        }
      }
  }

  lemma JobReaderAgreesWithWriter(p: RetryPolicy, input: string, attempt: nat, o: Outcome)
    requires attempt >= 1
    ensures ReadJob(p, input, JobOutcome(HashOf(input), attempt, o)) == JudgeJob(p, attempt, o)
  {
  }

  /** A visit that returns a recorded terminal failure ends like the visit that recorded it,
      except that it leaves the lease alone. */
  ghost predicate SameResult(again: Stop, once: Stop) {
    again == once || (again.Ended? && once.Completed? && again.outcome == once.outcome)
  }

  /** ra: the visit on M, rb: the single visit. */
  ghost predicate JobInStep(M: seq<Chapter>, ra: Visit, rb: Visit) {
    || ParkedInside(M, ra.stop, ra.state.log)
    || (SameResult(ra.stop, rb.stop) && ra.state.log == rb.state.log && ra.state.budget == rb.state.budget)
  }

  lemma {:induction false} JobBeyond(c: Config, e: Env, M: seq<Chapter>, policy: RunPolicy, input: string,
      attempt: nat, a: State, b: State)
    requires Alike(a, b) && a.pos == |a.log| && |M| <= |a.log|
    ensures
      var ra := JobLoop(c, e, policy, input, attempt, a);
      var rb := JobLoop(c, Splice(M, e), policy, input, attempt, b);
      ra.stop == rb.stop && Alike(ra.state, rb.state)
    decreases AttemptsLeft(policy.retry, attempt), 1
  {
    WorkerBeyond(c, e, M, policy, input, [], a, b);
    var wa := WorkerLoop(c, e, policy, input, [], a);
    var wb := WorkerLoop(c, Splice(M, e), policy, input, [], b);
    if wa.Finished? {
      SettleBeyond(c, e, M, policy, input, attempt, wa.result, wa.state, wb.state);
    }
  }

  lemma SettleAgain(c: Config, e: Env, policy: RunPolicy, input: string, attempt: nat, result: JobResult, s: State)
    requires !c.replay && s.pos == |s.log| && s.budget > 0 && !result.Nothing?
    ensures
      var u := Write(s, JobOutcome(HashOf(input), attempt, Recorded(result)));
      JobSettle(c, e, policy, input, attempt, result, s) ==
        match JudgeJob(policy.retry, attempt, Recorded(result))
        case Terminal(o) => Visit(Completed(o), u)
        case RetryAs(next) =>
          if e.waiting(u.pos) then Visit(Parked(u.pos), u) else JobLoop(c, e, policy, input, next, u)
  {
  }

  lemma {:induction false} SettleBeyond(c: Config, e: Env, M: seq<Chapter>, policy: RunPolicy, input: string,
      attempt: nat, result: JobResult, a: State, b: State)
    requires Alike(a, b) && a.pos == |a.log| && |M| <= |a.log|
    ensures
      var ra := JobSettle(c, e, policy, input, attempt, result, a);
      var rb := JobSettle(c, Splice(M, e), policy, input, attempt, result, b);
      ra.stop == rb.stop && Alike(ra.state, rb.state)
    decreases AttemptsLeft(policy.retry, attempt), 0
  {
    if !result.Nothing? && !c.replay && a.budget > 0 {
      var ch := JobOutcome(HashOf(input), attempt, Recorded(result));
      var verdict := JudgeJob(policy.retry, attempt, Recorded(result));
      SettleAgain(c, e, policy, input, attempt, result, a);
      SettleAgain(c, Splice(M, e), policy, input, attempt, result, b);
      if verdict.RetryAs? && !e.waiting(a.pos + 1) {
        JobBeyond(c, e, M, policy, input, verdict.attempt, Write(a, ch), Write(b, ch));
      }
    }
  }

  /** A live worker that starts at the end of the log first writes a task outcome, and if it
      writes nothing it finished without calling a task. */
  lemma WorkerStartsWithTask(c: Config, e: Env, policy: RunPolicy, input: string, s: State)
    requires !c.replay && s.pos == |s.log|
    ensures
      var r := WorkerLoop(c, e, policy, input, [], s);
      && (|s.log| < |r.state.log| ==> r.state.log[|s.log|].TaskOutcome?)
      && (r.state.log == s.log && r.Finished? ==>
          r == Finished(r.result, s) && c.program(input, []) == Finish(r.result))
  {
    match c.program(input, [])
    case Finish(_) =>
    case DoTask(over, task, taskInput) =>
      var t := TaskLoop(c, e, Effective(over, policy), task, taskInput, 1, s);
      if task in c.local && s.budget > 0 {
        var u := Write(s.(ran := s.ran + [s.pos]), TaskOutcome(task, HashOf(taskInput), 1, e.outcome(s.pos)));
        assert u.log <= t.state.log;
        if t.reply.Returned? {
          assert t.state.log <= WorkerLoop(c, e, policy, input, [], s).state.log;
        }
      }
  }

  lemma {:induction false} JobResumes(c: Config, e1: Env, e2: Env, M: seq<Chapter>, policy: RunPolicy, input: string,
      attempt: nat, s: State, a: State, b: State)
    requires !c.replay && attempt >= 1
    requires s.pos <= |s.log| <= |M| && s.log == b.log && s.pos == b.pos && Lockstep(M, a, b)
    requires M <= JobLoop(c, e1, policy, input, attempt, s).state.log
    ensures JobInStep(M, JobLoop(c, e2, policy, input, attempt, a),
                      JobLoop(c, Splice(M, e2), policy, input, attempt, b))
    decreases |s.log| - s.pos, AttemptsLeft(policy.retry, attempt), 2
  {
    var r := JobLoop(c, e1, policy, input, attempt, s);
    if s.pos < |s.log| && s.log[s.pos].JobOutcome? {
      JobResumesCached(c, e1, e2, M, policy, input, s, a, b);
    } else if s.pos == |s.log| < |M| && M[s.pos].JobOutcome? {
      WorkerStartsWithTask(c, e1, policy, input, s);
      var w := WorkerLoop(c, e1, policy, input, [], s);
      assert w.state.log <= r.state.log;
      assert r.state.log[s.pos] == M[s.pos];
      assert w.Finished? && w.state == s;
      JobResumesWriting(c, e1, e2, M, policy, input, attempt, w.result, s, a, b);
    } else {
      var w := WorkerLoop(c, e1, policy, input, [], s);
      assert w.state.log <= r.state.log;
      JobResumesRunning(c, e1, e2, M, policy, input, attempt, s, a, b);
    }
  }

  /** All three visits run the job worker's code from here. */
  lemma {:induction false} JobResumesRunning(c: Config, e1: Env, e2: Env, M: seq<Chapter>, policy: RunPolicy,
      input: string, attempt: nat, s: State, a: State, b: State)
    requires !c.replay && attempt >= 1
    requires s.pos <= |s.log| <= |M| && s.log == b.log && s.pos == b.pos && Lockstep(M, a, b)
    requires s.pos < |M| ==> !M[s.pos].JobOutcome?
    requires M <= JobLoop(c, e1, policy, input, attempt, s).state.log
    ensures JobInStep(M, JobLoop(c, e2, policy, input, attempt, a),
                      JobLoop(c, Splice(M, e2), policy, input, attempt, b))
    decreases |s.log| - s.pos, AttemptsLeft(policy.retry, attempt), 1, 1
  {
    var w := WorkerLoop(c, e1, policy, input, [], s);
    WorkerResumes(c, e1, e2, M, policy, input, [], s, a, b);
    var wa := WorkerLoop(c, e2, policy, input, [], a);
    var wb := WorkerLoop(c, Splice(M, e2), policy, input, [], b);
    if wa.Finished? {
      if |wb.state.log| < |M| {
        SettleResumes(c, e1, e2, M, policy, input, attempt, wa.result, w.state, wa.state, wb.state);
      } else if wb.state.log == M {
        SettleResumes(c, Splice(M, e2), e2, M, policy, input, attempt, wa.result, wb.state, wa.state, wb.state);
      } else {
        SettleBeyond(c, e2, M, policy, input, attempt, wa.result, wa.state, wb.state);
      }
    }
  }

  lemma {:induction false} SettleResumes(c: Config, e1: Env, e2: Env, M: seq<Chapter>, policy: RunPolicy,
      input: string, attempt: nat, result: JobResult, s: State, a: State, b: State)
    requires !c.replay && attempt >= 1
    requires s.pos <= |s.log| <= |M| && s.log == b.log && s.pos == b.pos && Lockstep(M, a, b)
    requires M <= JobSettle(c, e1, policy, input, attempt, result, s).state.log
    ensures JobInStep(M, JobSettle(c, e2, policy, input, attempt, result, a),
                      JobSettle(c, Splice(M, e2), policy, input, attempt, result, b))
    decreases |s.log| - s.pos, AttemptsLeft(policy.retry, attempt), 1, 0
  {
    if result.Nothing? {
    } else if s.pos < |s.log| {
      JobResumesCached(c, e1, e2, M, policy, input, s, a, b);
    } else if |s.log| == |M| {
      assert a.log == b.log == M;
      SettleBeyond(c, e2, M, policy, input, attempt, result, a, b);
    } else {
      JobResumesWriting(c, e1, e2, M, policy, input, attempt, result, s, a, b);
    }
  }

  lemma CachedAgain(c: Config, e: Env, policy: RunPolicy, input: string, s: State)
    requires s.pos < |s.log|
    requires ReadJob(policy.retry, input, s.log[s.pos]).RetryAs? && !e.waiting(s.pos + 1)
    ensures JobCached(c, e, policy, input, s)
         == JobLoop(c, e, policy, input, ReadJob(policy.retry, input, s.log[s.pos]).attempt, s.(pos := s.pos + 1))
  {
  }

  lemma {:induction false} JobResumesCached(c: Config, e1: Env, e2: Env, M: seq<Chapter>, policy: RunPolicy,
      input: string, s: State, a: State, b: State)
    requires !c.replay
    requires s.pos < |s.log| <= |M| && s.log == b.log && s.pos == b.pos && Lockstep(M, a, b)
    requires M <= JobCached(c, e1, policy, input, s).state.log
    ensures JobInStep(M, JobCached(c, e2, policy, input, a), JobCached(c, Splice(M, e2), policy, input, b))
    decreases |s.log| - s.pos, 0, 0
  {
    assert a.log[s.pos] == s.log[s.pos];
    var verdict := ReadJob(policy.retry, input, s.log[s.pos]);
    if verdict.RetryAs? && !e2.waiting(s.pos + 1) {
      var a' := a.(pos := s.pos + 1);
      var b' := b.(pos := s.pos + 1);
      CachedAgain(c, e2, policy, input, a);
      CachedAgain(c, Splice(M, e2), policy, input, b);
      if e1.waiting(s.pos + 1) {
        assert s.log == M;
        JobResumes(c, Splice(M, e2), e2, M, policy, input, verdict.attempt, b', a', b');
      } else {
        CachedAgain(c, e1, policy, input, s);
        JobResumes(c, e1, e2, M, policy, input, verdict.attempt, s.(pos := s.pos + 1), a', b');
      }
    } else {
      CachedStops(c, e1, e2, M, policy, input, s, a, b);
    }
  }

  lemma CachedStops(c: Config, e1: Env, e2: Env, M: seq<Chapter>, policy: RunPolicy, input: string, s: State,
      a: State, b: State)
    requires !c.replay
    requires s.pos < |s.log| <= |M| && s.log == b.log && s.pos == b.pos && Lockstep(M, a, b)
    requires M <= JobCached(c, e1, policy, input, s).state.log
    requires !(ReadJob(policy.retry, input, s.log[s.pos]).RetryAs? && !e2.waiting(s.pos + 1))
    ensures JobInStep(M, JobCached(c, e2, policy, input, a), JobCached(c, Splice(M, e2), policy, input, b))
  {
    assert a.log[s.pos] == s.log[s.pos];
  }

  /** The first visit recorded a job outcome at s.pos: the visit on M reads it, the single
      visit writes it again. */
  lemma {:induction false} JobResumesWriting(c: Config, e1: Env, e2: Env, M: seq<Chapter>, policy: RunPolicy,
      input: string, attempt: nat, result: JobResult, s: State, a: State, b: State)
    requires !c.replay && attempt >= 1 && !result.Nothing?
    requires s.pos == |s.log| < |M| && s.log == b.log && s.pos == b.pos && Lockstep(M, a, b)
    requires M <= JobSettle(c, e1, policy, input, attempt, result, s).state.log
    ensures JobInStep(M, JobCached(c, e2, policy, input, a),
                      JobSettle(c, Splice(M, e2), policy, input, attempt, result, b))
    decreases 0, AttemptsLeft(policy.retry, attempt), 0
  {
    var r := JobSettle(c, e1, policy, input, attempt, result, s);
    var o := Recorded(result);
    var ch := JobOutcome(HashOf(input), attempt, o);
    assert s.budget > 0;
    SettleAgain(c, e1, policy, input, attempt, result, s);
    SettleAgain(c, Splice(M, e2), policy, input, attempt, result, b);
    JobReaderAgreesWithWriter(policy.retry, input, attempt, o);
    var s' := Write(s, ch);
    assert s'.log <= r.state.log && s'.log[s.pos] == ch;
    assert M[s.pos] == ch && s'.log <= M;
    var a' := a.(pos := s.pos + 1);
    var b' := Write(b, ch);
    assert Lockstep(M, a', b');
    var verdict := JudgeJob(policy.retry, attempt, o);
    if verdict.RetryAs? {
      if !e2.waiting(s.pos + 1) {
        CachedAgain(c, e2, policy, input, a);
        if e1.waiting(s.pos + 1) {
          assert s'.log == M;
          JobBeyond(c, e2, M, policy, input, verdict.attempt, a', b');
        } else {
          JobResumes(c, e1, e2, M, policy, input, verdict.attempt, s', a', b');
        }
      }
    } else {
      assert s'.log == r.state.log;
    }
  }
}
