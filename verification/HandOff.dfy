/**
 What a job worker sees of a task that someone else performed: the visit that found no local
 task worker stopped at ordinal n; the external outcome was recorded at n; a later visit of the
 same worker is handed that outcome there.
 */
module CallTrace {
  import opened Retry
  import opened Chapters
  import opened Runner
  import opened Crash
  import opened Replay

  /** One `DoTask` call of a visit: the ordinal its answer came from, its input and its answer. */
  datatype Call = Call(ordinal: int, input: string, ret: Return)

  function WorkerTrace(c: Config, e: Env, policy: RunPolicy, input: string, hist: seq<Return>, s: State): seq<Call>
    requires s.pos <= |s.log|
    decreases |s.log| - s.pos + s.budget
  {
    match c.program(input, hist)
    case Finish(_) => []
    case DoTask(over, task, taskInput) =>
      var t := TaskLoop(c, e, Effective(over, policy), task, taskInput, 1, s);
      match t.reply
      case Halted(_) => []
      case Returned(ret) =>
        [Call(t.state.pos - 1, taskInput, ret)] + WorkerTrace(c, e, policy, input, hist + [ret], t.state)
  }

  /** All calls of a visit, over all the job attempts it goes through. */
  function JobTrace(c: Config, e: Env, policy: RunPolicy, input: string, attempt: nat, s: State): seq<Call>
    requires s.pos <= |s.log|
    decreases |s.log| - s.pos, AttemptsLeft(policy.retry, attempt), 2
  {
    if s.pos < |s.log| && s.log[s.pos].JobOutcome? then CachedTrace(c, e, policy, input, s)
    else
      match WorkerLoop(c, e, policy, input, [], s)
      case Stopped(_, _) => WorkerTrace(c, e, policy, input, [], s)
      case Finished(result, t) =>
        WorkerTrace(c, e, policy, input, [], s) + SettleTrace(c, e, policy, input, attempt, result, t)
  }

  function SettleTrace(c: Config, e: Env, policy: RunPolicy, input: string, attempt: nat, result: JobResult,
      s: State): seq<Call>
    requires s.pos <= |s.log|
    decreases |s.log| - s.pos, AttemptsLeft(policy.retry, attempt), 1
  {
    if result.Nothing? then []
    else if s.pos < |s.log| then CachedTrace(c, e, policy, input, s)
    else if c.replay || s.budget == 0 then []
    else
      var u := Write(s, JobOutcome(HashOf(input), attempt, Recorded(result)));
      match JudgeJob(policy.retry, attempt, Recorded(result))
      case Terminal(_) => []
      case RetryAs(next) => if e.waiting(u.pos) then [] else JobTrace(c, e, policy, input, next, u)
  }

  function CachedTrace(c: Config, e: Env, policy: RunPolicy, input: string, s: State): seq<Call>
    requires s.pos < |s.log|
    decreases |s.log| - s.pos, 0, 0
  {
    match ReadJob(policy.retry, input, s.log[s.pos])
    case RetryAs(next) => if e.waiting(s.pos + 1) then [] else JobTrace(c, e, policy, input, next, s.(pos := s.pos + 1))
    case _ => []
  }

  function VisitTrace(c: Config, e: Env, budget: nat, log: seq<Chapter>): seq<Call> {
    if log == [] || !log[0].JobStart? then []
    else JobTrace(c, e, JobPolicy(c, log[0]), log[0].input, 1, State(log, 1, budget, []))
  }

  function Answers(calls: seq<Call>): (rets: seq<Return>)
    ensures |rets| == |calls|
  {
    seq(|calls|, i requires 0 <= i < |calls| => calls[i].ret)
  }

  /** The calls of a pass are those its job worker makes: each asks for what the worker asks for with
      the answers so far in hand, and with all of them it is where the pass is. */
  lemma {:induction false} TraceIsWhatTheWorkerAsked(c: Config, e: Env, policy: RunPolicy, input: string,
      hist: seq<Return>, s: State)
    requires s.pos <= |s.log|
    ensures
      var calls := WorkerTrace(c, e, policy, input, hist, s);
      var w := WorkerLoop(c, e, policy, input, hist, s);
      && (forall i :: 0 <= i < |calls| ==>
            var asked := c.program(input, hist + Answers(calls)[..i]);
            asked.DoTask? && asked.input == calls[i].input)
      && (w.Finished? ==> c.program(input, hist + Answers(calls)) == Finish(w.result))
      && (w.Stopped? ==> c.program(input, hist + Answers(calls)).DoTask?)
      && (w.Stopped? && w.stop.External? ==>
            var asked := c.program(input, hist + Answers(calls));
            asked.task == w.stop.task && asked.input == w.stop.input)
    decreases |s.log| - s.pos + s.budget
  {
    hide TaskLoop, Effective, AttemptsLeft, HashOf;
    var calls := WorkerTrace(c, e, policy, input, hist, s);
    match c.program(input, hist) {
      case Finish(_) =>
        assert hist + Answers(calls) == hist;
      case DoTask(over, task, taskInput) =>
        var p := Effective(over, policy);
        var t := TaskLoop(c, e, p, task, taskInput, 1, s);
        ExternalNamesItsCall(c, e, p, task, taskInput, 1, s);
        match t.reply {
          case Halted(_) =>
            assert hist + Answers(calls) == hist;
          case Returned(ret) =>
            TraceIsWhatTheWorkerAsked(c, e, policy, input, hist + [ret], t.state);
            var later := WorkerTrace(c, e, policy, input, hist + [ret], t.state);
            assert Answers(calls) == [ret] + Answers(later);
            assert hist + Answers(calls) == (hist + [ret]) + Answers(later);
            forall i | 0 <= i < |calls|
              ensures
                var asked := c.program(input, hist + Answers(calls)[..i]);
                asked.DoTask? && asked.input == calls[i].input
            {
              if i == 0 {
                assert hist + Answers(calls)[..0] == hist;
              } else {
                assert hist + Answers(calls)[..i] == (hist + [ret]) + Answers(later)[..i - 1];
                assert calls[i] == later[i - 1];
              }
            }
        }
    }
  }

  /** The outcome handed over at the end of the log L that the first visit left. */
  ghost predicate HandedOver(L: seq<Chapter>, input: string, data: string, M: seq<Chapter>) {
    && L <= M && |L| < |M|
    && var ch := M[|L|];
       ch.TaskOutcome? && ch.hash == HashOf(input) && ch.outcome == Ok(data)
  }

  /** The first visit stops for this call's task at the end of the log it leaves. */
  ghost predicate StopsForTask(r: TaskStep, task: string, input: string, data: string, M: seq<Chapter>) {
    r.reply == Halted(External(|r.state.log|, task, input)) && HandedOver(r.state.log, input, data, M)
  }

  lemma {:induction false} TaskIsHanded(c: Config, d: Config, e1: Env, e2: Env, M: seq<Chapter>, data: string,
      p: RetryPolicy, task: string, input: string, attempt: nat, s: State, a: State)
    requires SameWorker(c, d) && attempt >= 1 && Quiet(e2, |M|)
    requires s.pos <= |s.log| && a.log == M && a.pos == s.pos && a.pos <= |M|
    requires StopsForTask(TaskLoop(c, e1, p, task, input, attempt, s), task, input, data, M)
    ensures
      var n := |TaskLoop(c, e1, p, task, input, attempt, s).state.log|;
      TaskLoop(d, e2, p, task, input, attempt, a) == TaskStep(Returned(Value(data)), a.(pos := n + 1))
    decreases |s.log| - s.pos, AttemptsLeft(p, attempt), 1
  {
    if s.pos < |s.log| {
      var r := TaskLoop(c, e1, p, task, input, attempt, s);
      assert s.log <= r.state.log <= M;
      assert M[s.pos] == s.log[s.pos];
      var verdict := Read(p, input, s.log[s.pos], s.pos);
      TaskIsHanded(c, d, e1, e2, M, data, p, task, input, verdict.attempt, s.(pos := s.pos + 1), a.(pos := s.pos + 1));
    } else if task in c.local {
      TaskIsHandedWriting(c, d, e1, e2, M, data, p, task, input, attempt, s, a);
    }
  }

  lemma {:induction false} TaskIsHandedWriting(c: Config, d: Config, e1: Env, e2: Env, M: seq<Chapter>, data: string,
      p: RetryPolicy, task: string, input: string, attempt: nat, s: State, a: State)
    requires SameWorker(c, d) && attempt >= 1 && Quiet(e2, |M|) && task in c.local
    requires s.pos == |s.log| && a.log == M && a.pos == s.pos && a.pos <= |M|
    requires StopsForTask(TaskLoop(c, e1, p, task, input, attempt, s), task, input, data, M)
    ensures
      var n := |TaskLoop(c, e1, p, task, input, attempt, s).state.log|;
      TaskLoop(d, e2, p, task, input, attempt, a) == TaskStep(Returned(Value(data)), a.(pos := n + 1))
    decreases |s.log| - s.pos, AttemptsLeft(p, attempt), 0
  {
    var r := TaskLoop(c, e1, p, task, input, attempt, s);
    assert s.log <= r.state.log <= M;
    var o := e1.outcome(s.pos);
    var ch := TaskOutcome(task, HashOf(input), attempt, o);
    var s' := Write(s.(ran := s.ran + [s.pos]), ch);
    Resume.ReaderAgreesWithWriter(p, task, input, attempt, o, s.pos);
    assert s'.log <= r.state.log && s'.log[s.pos] == ch;
    assert M[s.pos] == ch;
    TaskIsHanded(c, d, e1, e2, M, data, p, task, input, Judge(p, attempt, o).attempt, s', a.(pos := s.pos + 1));
  }

  /** The calls hold one answered at ordinal n with this data. */
  ghost predicate Answered(calls: seq<Call>, n: nat, input: string, data: string) {
    exists i :: 0 <= i < |calls| && calls[i] == Call(n, input, Value(data))
  }

  lemma AnsweredNow(calls: seq<Call>, n: nat, input: string, data: string)
    requires calls != [] && calls[0] == Call(n, input, Value(data))
    ensures Answered(calls, n, input, data)
  {
  }

  lemma AnsweredLater(first: seq<Call>, rest: seq<Call>, n: nat, input: string, data: string)
    requires Answered(rest, n, input, data)
    ensures Answered(first + rest, n, input, data)
  {
    var i :| 0 <= i < |rest| && rest[i] == Call(n, input, Value(data));
    assert (first + rest)[|first| + i] == Call(n, input, Value(data));
  }

  lemma {:induction false} WorkerIsHanded(c: Config, d: Config, e1: Env, e2: Env, M: seq<Chapter>, data: string,
      policy: RunPolicy, input: string, hist: seq<Return>, s: State, a: State)
    requires SameWorker(c, d) && Quiet(e2, |M|)
    requires s.pos <= |s.log| && a.log == M && a.pos == s.pos && a.pos <= |M|
    requires
      var r := WorkerLoop(c, e1, policy, input, hist, s);
      r.Stopped? && r.stop.External? && r.stop.ordinal == |r.state.log|
        && HandedOver(r.state.log, r.stop.input, data, M)
    ensures
      var r := WorkerLoop(c, e1, policy, input, hist, s);
      Answered(WorkerTrace(d, e2, policy, input, hist, a), |r.state.log|, r.stop.input, data)
    decreases |s.log| - s.pos + s.budget
  {
    hide TaskLoop, Answered;
    match c.program(input, hist)
    case DoTask(over, task, taskInput) =>
      var p := Effective(over, policy);
      var t := TaskLoop(c, e1, p, task, taskInput, 1, s);
      var r := WorkerLoop(c, e1, policy, input, hist, s);
      assert t.state.log <= r.state.log;
      match t.reply {
        case Halted(_) =>
          ExternalNamesItsCall(c, e1, p, task, taskInput, 1, s);
          TaskIsHanded(c, d, e1, e2, M, data, p, task, taskInput, 1, s, a);
          AnsweredNow(WorkerTrace(d, e2, policy, input, hist, a), |r.state.log|, taskInput, data);
        case Returned(ret) =>
          TaskReadsBack(c, d, e1, e2, M, p, task, taskInput, 1, s, a);
          WorkerIsHanded(c, d, e1, e2, M, data, policy, input, hist + [ret], t.state, On(M, t.state, a));
          AnsweredLater([Call(t.state.pos - 1, taskInput, ret)],
                        WorkerTrace(d, e2, policy, input, hist + [ret], On(M, t.state, a)),
                        |r.state.log|, r.stop.input, data);
      }
  }

  lemma {:induction false} ExternalNamesItsCall(c: Config, e: Env, p: RetryPolicy, task: string, input: string,
      attempt: nat, s: State)
    requires s.pos <= |s.log|
    ensures
      var r := TaskLoop(c, e, p, task, input, attempt, s);
      r.reply.Halted? && r.reply.stop.External? ==> r.reply.stop == External(|r.state.log|, task, input)
    decreases |s.log| - s.pos, AttemptsLeft(p, attempt)
  {
    if s.pos < |s.log| {
      var verdict := Read(p, input, s.log[s.pos], s.pos);
      if verdict.Again? && !e.waiting(s.pos + 1) {
        ExternalNamesItsCall(c, e, p, task, input, verdict.attempt, s.(pos := s.pos + 1));
      }
    } else if !c.replay && task in c.local && s.budget > 0 {
      var u := Write(s.(ran := s.ran + [s.pos]), TaskOutcome(task, HashOf(input), attempt, e.outcome(s.pos)));
      var verdict := Judge(p, attempt, e.outcome(s.pos));
      if verdict.Again? && !e.waiting(u.pos) {
        ExternalNamesItsCall(c, e, p, task, input, verdict.attempt, u);
      }
    }
  }

  /** A visit that stops for an external task stops at the end of the log it leaves. */
  ghost predicate AtItsEnd(stop: Stop, log: seq<Chapter>) {
    stop.External? ==> stop.ordinal == |log|
  }

  lemma {:induction false} WorkerStopsAtItsEnd(c: Config, e: Env, policy: RunPolicy, input: string, hist: seq<Return>,
      s: State)
    requires s.pos <= |s.log|
    ensures
      var r := WorkerLoop(c, e, policy, input, hist, s);
      r.Stopped? ==> AtItsEnd(r.stop, r.state.log)
    decreases |s.log| - s.pos + s.budget
  {
    match c.program(input, hist)
    case Finish(_) =>
    case DoTask(over, task, taskInput) =>
      ExternalNamesItsCall(c, e, Effective(over, policy), task, taskInput, 1, s);
      var t := TaskLoop(c, e, Effective(over, policy), task, taskInput, 1, s);
      if t.reply.Returned? {
        WorkerStopsAtItsEnd(c, e, policy, input, hist + [t.reply.ret], t.state);
      }
  }

  lemma {:induction false} JobStopsAtItsEnd(c: Config, e: Env, policy: RunPolicy, input: string, attempt: nat, s: State)
    requires s.pos <= |s.log|
    ensures
      var v := JobLoop(c, e, policy, input, attempt, s);
      AtItsEnd(v.stop, v.state.log)
    decreases |s.log| - s.pos, AttemptsLeft(policy.retry, attempt), 2
  {
    if s.pos < |s.log| && s.log[s.pos].JobOutcome? {
      CachedStopsAtItsEnd(c, e, policy, input, s);
    } else {
      WorkerStopsAtItsEnd(c, e, policy, input, [], s);
      var w := WorkerLoop(c, e, policy, input, [], s);
      if w.Finished? && !w.result.Nothing? && w.state.pos < |w.state.log| {
        CachedStopsAtItsEnd(c, e, policy, input, w.state);
      } else if w.Finished? && !w.result.Nothing? && !c.replay && w.state.budget > 0 {
        Resume.SettleAgain(c, e, policy, input, attempt, w.result, w.state);
        var u := Write(w.state, JobOutcome(HashOf(input), attempt, Recorded(w.result)));
        var verdict := JudgeJob(policy.retry, attempt, Recorded(w.result));
        if verdict.RetryAs? && !e.waiting(u.pos) {
          JobStopsAtItsEnd(c, e, policy, input, verdict.attempt, u);
        }
      }
    }
  }

  lemma {:induction false} CachedStopsAtItsEnd(c: Config, e: Env, policy: RunPolicy, input: string, s: State)
    requires s.pos < |s.log|
    ensures
      var v := JobCached(c, e, policy, input, s);
      AtItsEnd(v.stop, v.state.log)
    decreases |s.log| - s.pos, 0, 0
  {
    var verdict := ReadJob(policy.retry, input, s.log[s.pos]);
    if verdict.RetryAs? && !e.waiting(s.pos + 1) {
      JobStopsAtItsEnd(c, e, policy, input, verdict.attempt, s.(pos := s.pos + 1));
    }
  }

  lemma VisitStopsAtItsEnd(c: Config, e: Env, budget: nat, log: seq<Chapter>)
    ensures
      var v := DoJob(c, e, budget, log);
      AtItsEnd(v.stop, v.state.log)
  {
    if log != [] && log[0].JobStart? {
      JobStopsAtItsEnd(c, e, JobPolicy(c, log[0]), log[0].input, 1, State(log, 1, budget, []));
    }
  }

  lemma AnsweredFirst(first: seq<Call>, all: seq<Call>, n: nat, input: string, data: string)
    requires Answered(first, n, input, data) && first <= all
    ensures Answered(all, n, input, data)
  {
    var i :| 0 <= i < |first| && first[i] == Call(n, input, Value(data));
    assert all[i] == Call(n, input, Value(data));
  }

  /** The job visit c makes from s was stopped for an external task, and M continues its log. */
  ghost predicate StoppedFor(v: Visit, data: string, M: seq<Chapter>) {
    v.stop.External? && v.stop.ordinal == |v.state.log| && HandedOver(v.state.log, v.stop.input, data, M)
  }

  ghost predicate AnsweredAs(calls: seq<Call>, v: Visit, data: string)
    requires v.stop.External?
  {
    Answered(calls, |v.state.log|, v.stop.input, data)
  }

  lemma {:induction false} JobIsHanded(c: Config, d: Config, e1: Env, e2: Env, M: seq<Chapter>, data: string,
      policy: RunPolicy, input: string, attempt: nat, s: State, a: State)
    requires SameWorker(c, d) && attempt >= 1 && Quiet(e2, |M|)
    requires s.pos <= |s.log| && a.log == M && a.pos == s.pos && a.pos <= |M|
    requires StoppedFor(JobLoop(c, e1, policy, input, attempt, s), data, M)
    ensures AnsweredAs(JobTrace(d, e2, policy, input, attempt, a), JobLoop(c, e1, policy, input, attempt, s), data)
    decreases |s.log| - s.pos, AttemptsLeft(policy.retry, attempt), 2
  {
    var r := JobLoop(c, e1, policy, input, attempt, s);
    assert s.log <= r.state.log <= M;
    assert s.pos < |s.log| ==> M[s.pos] == s.log[s.pos];
    if s.pos < |s.log| && s.log[s.pos].JobOutcome? {
      CachedIsHanded(c, d, e1, e2, M, data, policy, input, s, a);
    } else if s.pos == |s.log| && M[s.pos].JobOutcome? {
      Resume.WorkerStartsWithTask(c, e1, policy, input, s);
      var w := WorkerLoop(c, e1, policy, input, [], s);
      assert w.state.log <= r.state.log;
      assert s.pos < |r.state.log| ==> r.state.log[s.pos] == M[s.pos];
      SettleIsHanded(c, d, e1, e2, M, data, policy, input, attempt, w.result, s, a);
    } else {
      RunIsHanded(c, d, e1, e2, M, data, policy, input, attempt, s, a);
    }
  }

  lemma TraceStartsWithWorker(c: Config, e: Env, policy: RunPolicy, input: string, attempt: nat, s: State)
    requires s.pos <= |s.log| && !(s.pos < |s.log| && s.log[s.pos].JobOutcome?)
    ensures WorkerTrace(c, e, policy, input, [], s) <= JobTrace(c, e, policy, input, attempt, s)
  {
  }

  lemma TraceGoesOnCached(c: Config, e: Env, policy: RunPolicy, input: string, attempt: nat, s: State)
    requires s.pos <= |s.log| && !(s.pos < |s.log| && s.log[s.pos].JobOutcome?)
    requires
      var w := WorkerLoop(c, e, policy, input, [], s);
      w.Finished? && !w.result.Nothing? && w.state.pos < |w.state.log|
    ensures JobTrace(c, e, policy, input, attempt, s)
         == WorkerTrace(c, e, policy, input, [], s)
            + CachedTrace(c, e, policy, input, WorkerLoop(c, e, policy, input, [], s).state)
  {
  }

  lemma {:induction false} RunIsHanded(c: Config, d: Config, e1: Env, e2: Env, M: seq<Chapter>, data: string,
      policy: RunPolicy, input: string, attempt: nat, s: State, a: State)
    requires SameWorker(c, d) && attempt >= 1 && Quiet(e2, |M|)
    requires s.pos <= |s.log| && a.log == M && a.pos == s.pos && a.pos < |M| && !M[s.pos].JobOutcome?
    requires !(s.pos < |s.log| && s.log[s.pos].JobOutcome?)
    requires StoppedFor(JobLoop(c, e1, policy, input, attempt, s), data, M)
    ensures AnsweredAs(JobTrace(d, e2, policy, input, attempt, a), JobLoop(c, e1, policy, input, attempt, s), data)
    decreases |s.log| - s.pos, AttemptsLeft(policy.retry, attempt), 1, 1
  {
    var r := JobLoop(c, e1, policy, input, attempt, s);
    var calls := WorkerTrace(d, e2, policy, input, [], a);
    match WorkerLoop(c, e1, policy, input, [], s)
    case Stopped(_, _) =>
      WorkerIsHanded(c, d, e1, e2, M, data, policy, input, [], s, a);
      TraceStartsWithWorker(d, e2, policy, input, attempt, a);
      AnsweredFirst(calls, JobTrace(d, e2, policy, input, attempt, a), |r.state.log|, r.stop.input, data);
    case Finished(result, t) =>
      assert t.log <= r.state.log;
      WorkerReadsBack(c, d, e1, e2, M, policy, input, [], s, a);
      SettleIsHanded(c, d, e1, e2, M, data, policy, input, attempt, result, t, On(M, t, a));
      TraceGoesOnCached(d, e2, policy, input, attempt, a);
      AnsweredLater(calls, CachedTrace(d, e2, policy, input, On(M, t, a)), |r.state.log|, r.stop.input, data);
  }

  lemma {:induction false} CachedIsHanded(c: Config, d: Config, e1: Env, e2: Env, M: seq<Chapter>, data: string,
      policy: RunPolicy, input: string, s: State, a: State)
    requires SameWorker(c, d) && Quiet(e2, |M|)
    requires s.pos < |s.log| && a.log == M && a.pos == s.pos && a.pos < |M|
    requires StoppedFor(JobCached(c, e1, policy, input, s), data, M)
    ensures AnsweredAs(CachedTrace(d, e2, policy, input, a), JobCached(c, e1, policy, input, s), data)
    decreases |s.log| - s.pos, 0, 0
  {
    var r := JobCached(c, e1, policy, input, s);
    assert s.log <= r.state.log <= M;
    assert M[s.pos] == s.log[s.pos];
    var verdict := ReadJob(policy.retry, input, s.log[s.pos]);
    Resume.CachedAgain(c, e1, policy, input, s);
    JobIsHanded(c, d, e1, e2, M, data, policy, input, verdict.attempt, s.(pos := s.pos + 1), a.(pos := s.pos + 1));
  }

  lemma {:induction false} SettleIsHanded(c: Config, d: Config, e1: Env, e2: Env, M: seq<Chapter>, data: string,
      policy: RunPolicy, input: string, attempt: nat, result: JobResult, s: State, a: State)
    requires SameWorker(c, d) && attempt >= 1 && Quiet(e2, |M|)
    requires s.pos <= |s.log| && a.log == M && a.pos == s.pos && a.pos < |M|
    requires StoppedFor(JobSettle(c, e1, policy, input, attempt, result, s), data, M)
    ensures AnsweredAs(CachedTrace(d, e2, policy, input, a), JobSettle(c, e1, policy, input, attempt, result, s), data)
    decreases |s.log| - s.pos, AttemptsLeft(policy.retry, attempt), 1, 0
  {
    var r := JobSettle(c, e1, policy, input, attempt, result, s);
    if s.pos < |s.log| {
      CachedIsHanded(c, d, e1, e2, M, data, policy, input, s, a);
    } else {
      var o := Recorded(result);
      var ch := JobOutcome(HashOf(input), attempt, o);
      Resume.SettleAgain(c, e1, policy, input, attempt, result, s);
      Resume.JobReaderAgreesWithWriter(policy.retry, input, attempt, o);
      var u := Write(s, ch);
      assert u.log <= r.state.log && u.log[s.pos] == ch;
      assert M[s.pos] == ch;
      JobIsHanded(c, d, e1, e2, M, data, policy, input, JudgeJob(policy.retry, attempt, o).attempt, u,
                  a.(pos := s.pos + 1));
    }
  }

  lemma {:induction false} WorkerTraceAscends(c: Config, e: Env, policy: RunPolicy, input: string, hist: seq<Return>,
      s: State)
    requires s.pos <= |s.log| && !c.replay
    ensures
      var calls := WorkerTrace(c, e, policy, input, hist, s);
      var r := WorkerLoop(c, e, policy, input, hist, s);
      Ascends(calls, s.pos, r.state.pos)
    decreases |s.log| - s.pos + s.budget
  {
    match c.program(input, hist)
    case Finish(_) =>
    case DoTask(over, task, taskInput) =>
      var t := TaskLoop(c, e, Effective(over, policy), task, taskInput, 1, s);
      ReturnTakesAnOrdinal(c, e, Effective(over, policy), task, taskInput, 1, s);
      if t.reply.Returned? {
        WorkerTraceAscends(c, e, policy, input, hist + [t.reply.ret], t.state);
        var call := Call(t.state.pos - 1, taskInput, t.reply.ret);
        AscendsGrows(call, WorkerTrace(c, e, policy, input, hist + [t.reply.ret], t.state), s.pos,
                     WorkerLoop(c, e, policy, input, hist, s).state.pos);
      }
  }

  lemma {:induction false} ReturnTakesAnOrdinal(c: Config, e: Env, p: RetryPolicy, task: string, input: string,
      attempt: nat, s: State)
    requires s.pos <= |s.log| && !c.replay
    ensures
      var r := TaskLoop(c, e, p, task, input, attempt, s);
      r.reply.Returned? ==> s.pos < r.state.pos
    decreases |s.log| - s.pos, AttemptsLeft(p, attempt)
  {
    if s.pos == |s.log| && task in c.local && s.budget > 0 {
      var u := Write(s.(ran := s.ran + [s.pos]), TaskOutcome(task, HashOf(input), attempt, e.outcome(s.pos)));
      assert u.pos <= TaskLoop(c, e, p, task, input, attempt, s).state.pos;
    }
  }

  ghost predicate Ascends(calls: seq<Call>, from: int, upTo: int) {
    && (forall i :: 0 <= i < |calls| ==> from <= calls[i].ordinal < upTo)
    && (forall i, j :: 0 <= i < j < |calls| ==> calls[i].ordinal < calls[j].ordinal)
  }

  lemma AscendsGrows(call: Call, rest: seq<Call>, from: int, upTo: int)
    requires from <= call.ordinal < upTo && Ascends(rest, call.ordinal + 1, upTo)
    ensures Ascends([call] + rest, from, upTo)
  {
  }

  lemma AscendsJoins(first: seq<Call>, rest: seq<Call>, from: int, mid: int, upTo: int)
    requires Ascends(first, from, mid) && Ascends(rest, mid, upTo) && from <= mid <= upTo
    ensures Ascends(first + rest, from, upTo)
  {
  }

  lemma {:induction false} JobTraceAscends(c: Config, e: Env, policy: RunPolicy, input: string, attempt: nat, s: State)
    requires s.pos <= |s.log| && !c.replay
    ensures Ascends(JobTrace(c, e, policy, input, attempt, s), s.pos,
                    JobLoop(c, e, policy, input, attempt, s).state.pos)
    decreases |s.log| - s.pos, AttemptsLeft(policy.retry, attempt), 2
  {
    hide Ascends, WorkerTrace, CachedTrace, SettleTrace, JobSettle, JobCached;
    if s.pos < |s.log| && s.log[s.pos].JobOutcome? {
      CachedTraceAscends(c, e, policy, input, s);
    } else {
      WorkerTraceAscends(c, e, policy, input, [], s);
      match WorkerLoop(c, e, policy, input, [], s) {
        case Stopped(_, _) =>
        case Finished(result, t) =>
          SettleTraceAscends(c, e, policy, input, attempt, result, t);
          AscendsJoins(WorkerTrace(c, e, policy, input, [], s), SettleTrace(c, e, policy, input, attempt, result, t),
                       s.pos, t.pos, JobSettle(c, e, policy, input, attempt, result, t).state.pos);
      }
    }
  }

  lemma {:induction false} SettleTraceAscends(c: Config, e: Env, policy: RunPolicy, input: string, attempt: nat,
      result: JobResult, s: State)
    requires s.pos <= |s.log| && !c.replay
    ensures Ascends(SettleTrace(c, e, policy, input, attempt, result, s), s.pos,
                    JobSettle(c, e, policy, input, attempt, result, s).state.pos)
    decreases |s.log| - s.pos, AttemptsLeft(policy.retry, attempt), 1
  {
    if !result.Nothing? {
      if s.pos < |s.log| {
        CachedTraceAscends(c, e, policy, input, s);
      } else if s.budget > 0 {
        Resume.SettleAgain(c, e, policy, input, attempt, result, s);
        var u := Write(s, JobOutcome(HashOf(input), attempt, Recorded(result)));
        var verdict := JudgeJob(policy.retry, attempt, Recorded(result));
        if verdict.RetryAs? && !e.waiting(u.pos) {
          JobTraceAscends(c, e, policy, input, verdict.attempt, u);
          var end := JobLoop(c, e, policy, input, verdict.attempt, u).state.pos;
          AscendsWidens(JobTrace(c, e, policy, input, verdict.attempt, u), u.pos, end, s.pos, end);
        }
      }
    }
  }

  lemma AscendsWidens(calls: seq<Call>, from: int, upTo: int, lower: int, upper: int)
    requires Ascends(calls, from, upTo) && lower <= from && upTo <= upper
    ensures Ascends(calls, lower, upper)
  {
  }

  lemma {:induction false} CachedTraceAscends(c: Config, e: Env, policy: RunPolicy, input: string, s: State)
    requires s.pos < |s.log| && !c.replay
    ensures Ascends(CachedTrace(c, e, policy, input, s), s.pos, JobCached(c, e, policy, input, s).state.pos)
    decreases |s.log| - s.pos, 0, 0
  {
    var verdict := ReadJob(policy.retry, input, s.log[s.pos]);
    if verdict.RetryAs? && !e.waiting(s.pos + 1) {
      var t := s.(pos := s.pos + 1);
      JobTraceAscends(c, e, policy, input, verdict.attempt, t);
      var end := JobLoop(c, e, policy, input, verdict.attempt, t).state.pos;
      AscendsWidens(JobTrace(c, e, policy, input, verdict.attempt, t), t.pos, end, s.pos, end);
    }
  }

  /** A visit stopped for an external task at the end of its log.  Once an outcome with that
      call's input hash stands there, every later visit of the same worker over the log makes
      exactly one call that is answered at that ordinal, and its answer is that outcome's data. */
  lemma ExternalOutcomeIsReturned(c: Config, d: Config, e1: Env, e2: Env, b1: nat, b2: nat, log: seq<Chapter>,
      M: seq<Chapter>, data: string)
    requires SameJob(c, d, log) && Quiet(e2, |M|)
    requires StoppedFor(DoJob(c, e1, b1, log), data, M)
    ensures AnsweredAs(VisitTrace(d, e2, b2, M), DoJob(c, e1, b1, log), data)
    ensures !d.replay ==> forall i, j :: 0 <= i < j < |VisitTrace(d, e2, b2, M)| ==>
      VisitTrace(d, e2, b2, M)[i].ordinal < VisitTrace(d, e2, b2, M)[j].ordinal
  {
    assert M[0] == log[0];
    var s, a := State(log, 1, b1, []), State(M, 1, b2, []);
    JobIsHanded(c, d, e1, e2, M, data, JobPolicy(c, log[0]), log[0].input, 1, s, a);
    if !d.replay { JobTraceAscends(d, e2, JobPolicy(d, M[0]), M[0].input, 1, a); }
  }
}

/**
 Completing a task from outside (`CompleteTaskIfWaiting`, pkg/jobdb/runtime/sqlite/runtime.go).
 One call is three transactions: load and check the row, save the chapter, update the row if it
 still waits for the same capability.  Calls interleave with each other and with visits.
 */
module HandOff {
  import opened Retry
  import opened Chapters
  import opened Runner
  import opened Resume
  import opened Replay
  import opened CallTrace

  datatype Wait = Wait(inputStep: int, outputStep: int, next: string, inputHash: string)

  /** An unset string is "", an unset input ordinal 0. */
  datatype Request = Request(
    capability: string, resumeNeed: string, inputOrdinal: int, outputOrdinal: int, inputHash: string, data: string)

  /** A job's log beside its row: the policy and the wait of its payload, its need, and whether it
      is archived. */
  datatype Job = Job(log: seq<Chapter>, base: RunPolicy, nextNeed: string, wait: Option<Wait>, archived: bool)

  /** How far a call has come. */
  datatype Phase =
    | Loaded(req: Request, wait: Wait, capability: string)
    | Saved(req: Request, wait: Wait, capability: string)
    | Succeeded(req: Request, wait: Wait)

  datatype World = World(job: Job, calls: map<nat, Phase>)

  /** `Grow` is a chapter that anyone saves, also a visit that goes on or dies later.  `Visit` is
      the end of a visit that started when the log had `seen` chapters.  `Change` is any other
      update of the row. */
  datatype Event =
    | Grow(chapter: Chapter)
    | Visit(local: set<string>, env: Env, budget: nat, seen: nat)
    | Change(nextNeed: string, drops: bool, archived: bool)
    | Load(call: nat, req: Request)
    | Save(call: nat)
    | Update(call: nat)

  predicate Matches(req: Request, wait: Wait, capability: string) {
    && (req.capability == "" || capability == req.capability)
    && (req.resumeNeed == "" || wait.next == req.resumeNeed)
    && (req.inputOrdinal == 0 || wait.inputStep == req.inputOrdinal)
    && wait.outputStep == req.outputOrdinal
    && (req.inputHash == "" || wait.inputHash == req.inputHash)
  }

  /** The chapter takes its attempt number from the input chapter and is always a success. */
  function OutputChapter(log: seq<Chapter>, p: Phase): Chapter
    requires p.Loaded?
  {
    var step := p.wait.inputStep;
    var attempt := if 0 < step < |log| && !log[step].JobStart? then log[step].attempt else 0;
    TaskOutcome(p.capability, p.wait.inputHash, attempt, Ok(p.req.data))
  }

  /** The program of c with the task workers of one process and the policy of the row. */
  function Visitor(c: Config, local: set<string>, base: RunPolicy): Config {
    Config(c.program, local, base, false)
  }

  /** What a visit of the job type stores when it stops for a task it cannot perform. */
  function WaitOf(jobType: string, stop: Stop): Wait
    requires stop.External?
  {
    Wait(if stop.ordinal == 0 then 0 else stop.ordinal - 1, stop.ordinal, jobType, HashOf(stop.input))
  }

  /** A visit can end only on a log that holds everything it has written. */
  function AfterVisit(c: Config, job: Job, local: set<string>, e: Env, budget: nat, seen: nat): Job {
    if seen > |job.log| then job
    else
      var visitor := Visitor(c, local, job.base);
      var v := DoJob(visitor, e, budget, job.log[..seen]);
      if !(v.state.log <= job.log) && !(job.log <= v.state.log) then job
      else
        var after := job.(log := if v.state.log <= job.log then job.log else v.state.log);
        match v.stop
        case External(_, task, _) =>
          if after.log == [] || !after.log[0].JobStart? then after
          else after.(
            base := JobPolicy(visitor, after.log[0]),
            wait := Some(WaitOf(after.log[0].jobType, v.stop)),
            nextNeed := after.log[0].jobType + ":" + task)
        case Completed(_) => after.(archived := true)
        case _ => after
  }

  function Step(c: Config, w: World, e: Event): World {
    match e
    case Grow(ch) => w.(job := w.job.(log := w.job.log + [ch]))
    case Visit(local, env, budget, seen) => w.(job := AfterVisit(c, w.job, local, env, budget, seen))
    case Change(need, drops, archived) =>
      w.(job := w.job.(
        wait := if drops then None else w.job.wait, nextNeed := need, archived := w.job.archived || archived))
    case Load(call, req) =>
      if call !in w.calls && w.job.wait.Some? && Matches(req, w.job.wait.value, w.job.nextNeed)
      then w.(calls := w.calls[call := Loaded(req, w.job.wait.value, w.job.nextNeed)])
      else w
    case Save(call) =>
      if && call in w.calls && w.calls[call].Loaded?
         && w.calls[call].wait.outputStep == |w.job.log| && w.calls[call].wait.inputStep < |w.job.log|
      then
        var p := w.calls[call];
        World(w.job.(log := w.job.log + [OutputChapter(w.job.log, p)]),
              w.calls[call := Saved(p.req, p.wait, p.capability)])
      else w
    case Update(call) =>
      if call in w.calls && w.calls[call].Saved? && !w.job.archived && w.job.nextNeed == w.calls[call].capability then
        var p := w.calls[call];
        World(w.job.(wait := None, nextNeed := if p.req.resumeNeed != "" then p.req.resumeNeed else p.wait.next),
              w.calls[call := Succeeded(p.req, p.wait)])
      else w
  }

  function Run(c: Config, w: World, events: seq<Event>): World
    decreases |events|
  {
    if events == [] then w else Run(c, Step(c, w, events[0]), events[1..])
  }

  /** A stored wait is one that a visit of the worker stopped for: its log is a prefix of the
      job's, and the wait names the end of that log, the chapter before it, the call's input hash and
      the job type that is to go on. */
  ghost predicate WaitSound(c: Config, log: seq<Chapter>, wait: Wait) {
    exists c1: Config, e: Env, b: nat, before: seq<Chapter> ::
      SameJob(c1, c, before) && StoppedWith(DoJob(c1, e, b, before), log, wait)
  }

  ghost predicate StoppedWith(v: Runner.Visit, log: seq<Chapter>, wait: Wait) {
    && v.stop.External? && v.stop.ordinal == |v.state.log| == wait.outputStep && v.state.log <= log
    && wait.inputHash == HashOf(v.stop.input)
    && log != [] && log[0].JobStart? && wait.next == log[0].jobType
    && wait.outputStep > 0 && wait.inputStep == wait.outputStep - 1
  }

  /** The policy in the row leads to the policy the job had when its first visit began. */
  ghost predicate PolicyKept(c: Config, job: Job) {
    || job.base == c.base
    || (&& job.log != [] && job.log[0].JobStart?
        && JobPolicy(c.(base := job.base), job.log[0]) == JobPolicy(c, job.log[0]))
  }

  lemma VisitArrivesAtThePolicy(c: Config, local: set<string>, base: RunPolicy, start: Chapter)
    requires start.JobStart? && (base == c.base || JobPolicy(c.(base := base), start) == JobPolicy(c, start))
    ensures JobPolicy(Visitor(c, local, base), start) == JobPolicy(c, start)
    ensures JobPolicy(c.(base := JobPolicy(c, start)), start) == JobPolicy(c, start)
  {
    PolicySurvivesSuspension(c, start);
  }

  /** A visit that stops for a task has found a start chapter, and stops at the end of its log. */
  lemma StoppedVisitHasStart(c: Config, e: Env, budget: nat, log: seq<Chapter>)
    ensures
      var v := DoJob(c, e, budget, log);
      v.stop.External? ==> log != [] && log[0].JobStart? && v.stop.ordinal == |v.state.log| && v.state.log[0] == log[0]
  {
    VisitStopsAtItsEnd(c, e, budget, log);
  }

  lemma VisitStoresSoundWaits(c: Config, job: Job, local: set<string>, e: Env, budget: nat, seen: nat)
    requires !c.replay && PolicyKept(c, job) && (job.wait.Some? ==> WaitSound(c, job.log, job.wait.value))
    ensures
      var after := AfterVisit(c, job, local, e, budget, seen);
      && job.log <= after.log && PolicyKept(c, after)
      && (after.wait.Some? ==> WaitSound(c, after.log, after.wait.value))
  {
    hide JobPolicy, DoJob;
    var after := AfterVisit(c, job, local, e, budget, seen);
    if job.wait.Some? { WaitsStaySound(c, job.log, after.log, job.wait.value); }
    if seen <= |job.log| {
      var visitor := Visitor(c, local, job.base);
      var before := job.log[..seen];
      var v := DoJob(visitor, e, budget, before);
      StoppedVisitHasStart(visitor, e, budget, before);
      if v.stop.External? && (v.state.log <= job.log || job.log <= v.state.log) {
        VisitArrivesAtThePolicy(c, local, job.base, after.log[0]);
        assert SameJob(visitor, c, before);
        assert StoppedWith(v, after.log, after.wait.value);
      }
    }
  }

  ghost predicate OutputStands(log: seq<Chapter>, p: Phase) {
    && 0 <= p.wait.outputStep < |log| && p.req.outputOrdinal == p.wait.outputStep
    && var ch := log[p.wait.outputStep];
       ch.TaskOutcome? && ch.hash == p.wait.inputHash && ch.outcome == Ok(p.req.data)
  }

  lemma WaitsStaySound(c: Config, log: seq<Chapter>, log': seq<Chapter>, wait: Wait)
    requires WaitSound(c, log, wait) && log <= log'
    ensures WaitSound(c, log', wait)
  {
    var c1: Config, e: Env, b: nat, before: seq<Chapter> :|
      SameJob(c1, c, before) && StoppedWith(DoJob(c1, e, b, before), log, wait);
    assert StoppedWith(DoJob(c1, e, b, before), log', wait);
  }

  /** The call the request names: its output ordinal, and its input ordinal, hash and resume need
      as far as they are given. */
  ghost predicate MeantFor(req: Request, wait: Wait) {
    && req.outputOrdinal == wait.outputStep
    && (req.inputOrdinal != 0 ==> req.inputOrdinal == wait.inputStep)
    && (req.inputHash != "" ==> req.inputHash == wait.inputHash)
    && (req.resumeNeed != "" ==> req.resumeNeed == wait.next)
  }

  ghost predicate WaitsSound(c: Config, w: World) {
    && PolicyKept(c, w.job)
    && (w.job.wait.Some? ==> WaitSound(c, w.job.log, w.job.wait.value))
    && (forall i :: i in w.calls ==>
        WaitSound(c, w.job.log, w.calls[i].wait) && MeantFor(w.calls[i].req, w.calls[i].wait))
  }

  ghost predicate OutputsStand(w: World) {
    && (forall i :: i in w.calls && !w.calls[i].Loaded? ==> OutputStands(w.job.log, w.calls[i]))
    && (forall i, j :: i in w.calls && j in w.calls && i != j && !w.calls[i].Loaded? && !w.calls[j].Loaded? ==>
          w.calls[i].wait.outputStep != w.calls[j].wait.outputStep)
  }

  ghost predicate Kept(c: Config, w: World) {
    WaitsSound(c, w) && OutputsStand(w)
  }

  lemma StepKeepsWaits(c: Config, w: World, e: Event)
    requires !c.replay && WaitsSound(c, w)
    ensures WaitsSound(c, Step(c, w, e)) && w.job.log <= Step(c, w, e).job.log
  {
    hide WaitSound, AfterVisit;
    var w' := Step(c, w, e);
    if e.Visit? {
      VisitStoresSoundWaits(c, w.job, e.local, e.env, e.budget, e.seen);
    } else if w'.job.wait.Some? {
      WaitsStaySound(c, w.job.log, w'.job.log, w'.job.wait.value);
    }
    forall i | i in w'.calls ensures WaitSound(c, w'.job.log, w'.calls[i].wait) {
      WaitsStaySound(c, w.job.log, w'.job.log, w'.calls[i].wait);
    }
  }

  lemma OutputsStayStanding(w: World, log: seq<Chapter>, calls: map<nat, Phase>)
    requires OutputsStand(w) && w.job.log <= log
    requires forall i :: i in calls && !calls[i].Loaded? ==>
      && i in w.calls && !w.calls[i].Loaded?
      && calls[i].wait == w.calls[i].wait && calls[i].req == w.calls[i].req
    ensures OutputsStand(World(w.job.(log := log), calls))
  {
    forall i | i in calls && !calls[i].Loaded? ensures OutputStands(log, calls[i]) {
      assert OutputStands(w.job.log, w.calls[i]);
    }
  }

  lemma SaveKeepsOutputs(c: Config, w: World, call: nat)
    requires WaitsSound(c, w) && OutputsStand(w)
    ensures OutputsStand(Step(c, w, Save(call)))
  {
    hide WaitSound;
    var w' := Step(c, w, Save(call));
    forall i | i in w.calls && !w.calls[i].Loaded?
      ensures w.calls[i].wait.outputStep < |w.job.log| && OutputStands(w'.job.log, w.calls[i])
    {
      assert OutputStands(w.job.log, w.calls[i]);
    }
  }

  lemma StepKeepsOutputs(c: Config, w: World, e: Event)
    requires !c.replay && WaitsSound(c, w) && OutputsStand(w)
    ensures OutputsStand(Step(c, w, e))
  {
    hide WaitsSound, AfterVisit, OutputsStand;
    var w' := Step(c, w, e);
    StepKeepsWaits(c, w, e);
    if e.Save? {
      SaveKeepsOutputs(c, w, e.call);
    } else {
      OutputsStayStanding(w, w'.job.log, w'.calls);
      SameLogSameOutputs(World(w.job.(log := w'.job.log), w'.calls), w');
    }
  }

  lemma SameLogSameOutputs(w: World, w': World)
    requires OutputsStand(w) && w'.job.log == w.job.log && w'.calls == w.calls
    ensures OutputsStand(w')
  {
  }

  lemma {:induction false} RunKeeps(c: Config, w: World, events: seq<Event>)
    requires !c.replay && Kept(c, w)
    ensures Kept(c, Run(c, w, events)) && w.job.log <= Run(c, w, events).job.log
    decreases |events|
  {
    if events == [] {
    } else {
      StepKeepsWaits(c, w, events[0]);
      StepKeepsOutputs(c, w, events[0]);
      RunKeeps(c, Step(c, w, events[0]), events[1..]);
    }
  }

  /** A job before any call, with the policy its first visit will start from. */
  ghost predicate Fresh(c: Config, w: World) {
    !c.replay && w.job.base == c.base && w.calls == map[] && w.job.wait.None?
  }

  /** Under any interleaving at most one call succeeds for an output ordinal. */
  lemma OneSuccessPerOrdinal(c: Config, w: World, events: seq<Event>, i: nat, j: nat)
    requires Fresh(c, w)
    requires
      var calls := Run(c, w, events).calls;
      && i in calls && j in calls && calls[i].Succeeded? && calls[j].Succeeded?
      && calls[i].req.outputOrdinal == calls[j].req.outputOrdinal
    ensures i == j
  {
    RunKeeps(c, w, events);
  }

  /** After a success, every later visit of the same worker on the same job, live or in replay and
      over whatever the log has become, is answered at the output ordinal with exactly that call's
      data, for an input with the hash the request named, if it named one. */
  lemma SuccessIsWhatTheWorkerSees(c: Config, w: World, before: seq<Event>, after: seq<Event>, i: nat, d: Config,
      e: Env, budget: nat)
    requires Fresh(c, w) && SameJob(c, d, Run(c, Run(c, w, before), after).job.log)
    requires i in Run(c, w, before).calls && Run(c, w, before).calls[i].Succeeded?
    requires Quiet(e, |Run(c, Run(c, w, before), after).job.log|)
    ensures
      var req := Run(c, w, before).calls[i].req;
      req.outputOrdinal >= 0 &&
      exists input: string ::
        && Answered(VisitTrace(d, e, budget, Run(c, Run(c, w, before), after).job.log), req.outputOrdinal, input,
                    req.data)
        && (req.inputHash != "" ==> req.inputHash == HashOf(input))
  {
    var w1 := Run(c, w, before);
    RunKeeps(c, w, before);
    RunKeeps(c, w1, after);
    var M := Run(c, w1, after).job.log;
    var p := w1.calls[i];
    assert OutputStands(w1.job.log, p);
    var c1: Config, e1: Env, b: nat, log: seq<Chapter> :|
      SameJob(c1, c, log) && StoppedWith(DoJob(c1, e1, b, log), w1.job.log, p.wait);
    var v := DoJob(c1, e1, b, log);
    assert log <= v.state.log <= M;
    assert SameJob(c1, d, log) by { assert log != [] ==> log[0] == M[0]; }
    assert HandedOver(v.state.log, v.stop.input, p.req.data, M) by {
      assert M[p.wait.outputStep] == w1.job.log[p.wait.outputStep];
    }
    ExternalOutcomeIsReturned(c1, d, e1, e, b, budget, log, M, p.req.data);
    assert Answered(VisitTrace(d, e, budget, M), p.req.outputOrdinal, v.stop.input, p.req.data);
  }

  // What one event does to the row.

  /** A visit that has written everything and stops for a task leaves the wait for that task, and
      asks for workers that offer it; one that completes archives the job; any other leaves the row
      as it was. */
  lemma VisitLeavesTheRow(c: Config, job: Job, local: set<string>, e: Env, budget: nat, seen: nat)
    requires seen <= |job.log|
    ensures
      var v := DoJob(Visitor(c, local, job.base), e, budget, job.log[..seen]);
      var after := AfterVisit(c, job, local, e, budget, seen);
      && (v.state.log <= job.log ==> after.log == job.log)
      && (job.log <= v.state.log ==> after.log == v.state.log)
      && (v.state.log <= job.log || job.log <= v.state.log ==>
            && (v.stop.External? ==>
                  && job.log != [] && job.log[0].JobStart?
                  && v.stop.ordinal == |v.state.log|
                  && var jobType := job.log[0].jobType;
                     after == job.(
                       log := after.log, base := JobPolicy(Visitor(c, local, job.base), job.log[0]),
                       nextNeed := jobType + ":" + v.stop.task,
                       wait := Some(Wait(v.stop.ordinal - 1, v.stop.ordinal, jobType, HashOf(v.stop.input)))))
            && (v.stop.Completed? ==> after == job.(log := after.log, archived := true))
            && (!v.stop.External? && !v.stop.Completed? ==> after == job.(log := after.log)))
  {
    hide DoJob, JobPolicy;
    StoppedVisitHasStart(Visitor(c, local, job.base), e, budget, job.log[..seen]);
  }

  /** Any other update of the row, and any other chapter. */
  lemma OthersLeaveTheCalls(c: Config, w: World, ch: Chapter, need: string, drops: bool, archives: bool)
    ensures Step(c, w, Grow(ch)) == w.(job := w.job.(log := w.job.log + [ch]))
    ensures
      var w' := Step(c, w, Change(need, drops, archives));
      && w'.calls == w.calls && w'.job.log == w.job.log && w'.job.base == w.job.base && w'.job.nextNeed == need
      && (w'.job.wait == None || w'.job.wait == w.job.wait) && (w'.job.wait.Some? ==> !drops)
      && (!drops ==> w'.job.wait == w.job.wait)
      && (w'.job.archived <==> w.job.archived || archives)
  {
  }

  /** The request agrees with the wait and the capability in every field it gives; its output
      ordinal it must give. */
  ghost predicate Agrees(req: Request, wait: Wait, capability: string) {
    && (req.capability == capability || req.capability == "")
    && (req.resumeNeed == wait.next || req.resumeNeed == "")
    && (req.inputOrdinal == wait.inputStep || req.inputOrdinal == 0)
    && (req.inputHash == wait.inputHash || req.inputHash == "")
    && req.outputOrdinal == wait.outputStep
  }

  /** A new call is loaded exactly if the job waits and the request agrees. */
  lemma LoadsExactly(c: Config, w: World, call: nat, req: Request)
    requires call !in w.calls
    ensures
      var w' := Step(c, w, Load(call, req));
      && w'.job == w.job
      && (w.job.wait.Some? && Agrees(req, w.job.wait.value, w.job.nextNeed) ==>
            w'.calls == w.calls[call := Loaded(req, w.job.wait.value, w.job.nextNeed)])
      && (!(w.job.wait.Some? && Agrees(req, w.job.wait.value, w.job.nextNeed)) ==> w'.calls == w.calls)
  {
  }

  /** A loaded call saves its chapter exactly if that is the next ordinal: a success with the
      request's data and the awaited hash, under the waiting capability, with the attempt number of
      the chapter before it, or none after the start chapter. */
  lemma SavesExactly(c: Config, w: World, call: nat)
    requires WaitsSound(c, w) && call in w.calls && w.calls[call].Loaded?
    ensures
      var p := w.calls[call];
      var w' := Step(c, w, Save(call));
      if p.wait.outputStep != |w.job.log| then w' == w
      else
        var last := w.job.log[|w.job.log| - 1];
        && w' == World(w.job.(log := w'.job.log), w.calls[call := Saved(p.req, p.wait, p.capability)])
        && var attempt := if last.JobStart? then 0 else last.attempt;
           w'.job.log == w.job.log + [TaskOutcome(p.capability, p.wait.inputHash, attempt, Ok(p.req.data))]
  {
    assert WaitSound(c, w.job.log, w.calls[call].wait);
  }

  /** A saved call succeeds exactly if the job is not archived and still waits for the same
      capability: then the wait is over and the row asks for the job's own type. */
  lemma UpdatesExactly(c: Config, w: World, call: nat)
    requires WaitsSound(c, w) && call in w.calls && w.calls[call].Saved?
    ensures
      var p := w.calls[call];
      var w' := Step(c, w, Update(call));
      && w.job.log != [] && w.job.log[0].JobStart?
      && (p.req.resumeNeed == "" || p.req.resumeNeed == w.job.log[0].jobType)
      && (if w.job.archived || w.job.nextNeed != p.capability then w' == w
          else
            && w'.job == w.job.(wait := None, nextNeed := w.job.log[0].jobType)
            && w'.calls == w.calls[call := Succeeded(p.req, p.wait)])
  {
    assert WaitSound(c, w.job.log, w.calls[call].wait);
  }

  /** In every run: once an update takes a call to its success, the job waits for nothing and asks
      for the workers of its own type, which is the resume need the request gave if it gave one. */
  lemma SuccessHandsTheJobBack(c: Config, w: World, events: seq<Event>, call: nat)
    requires Fresh(c, w)
    requires call in Run(c, w, events).calls && !Run(c, w, events).calls[call].Succeeded?
    requires
      var w' := Step(c, Run(c, w, events), Update(call));
      call in w'.calls && w'.calls[call].Succeeded?
    ensures
      var before := Run(c, w, events);
      var w' := Step(c, before, Update(call));
      var req := w'.calls[call].req;
      && w'.job.wait == None && w'.job.log == before.job.log && w'.job.log != [] && w'.job.log[0].JobStart?
      && w'.job.nextNeed == w'.job.log[0].jobType
      && w'.job.nextNeed == (if req.resumeNeed != "" then req.resumeNeed else w'.calls[call].wait.next)
  {
    RunKeeps(c, w, events);
    UpdatesExactly(c, Run(c, w, events), call);
  }

  /** In every run: while the job waits, is open and nobody else has written behind the visit that
      stopped, a request that agrees with the wait is loaded, saved and succeeds if nothing comes
      between. */
  lemma AgreeingCallSucceeds(c: Config, w: World, events: seq<Event>, call: nat, req: Request)
    requires Fresh(c, w)
    requires
      var at := Run(c, w, events);
      && call !in at.calls && !at.job.archived && at.job.wait.Some?
      && Agrees(req, at.job.wait.value, at.job.nextNeed) && at.job.wait.value.outputStep == |at.job.log|
    ensures
      var at := Run(c, w, events);
      var w' := Run(c, at, [Load(call, req), Save(call), Update(call)]);
      && call in w'.calls && w'.calls[call] == Succeeded(req, at.job.wait.value)
      && at.job.log <= w'.job.log && |w'.job.log| == |at.job.log| + 1 == req.outputOrdinal + 1
      && w'.job.log[req.outputOrdinal].TaskOutcome? && w'.job.log[req.outputOrdinal].outcome == Ok(req.data)
      && at.job.log != [] && at.job.log[0].JobStart?
      && w'.job.nextNeed == at.job.log[0].jobType && w'.job.wait == None
  {
    hide WaitSound, AfterVisit;
    var at := Run(c, w, events);
    RunKeeps(c, w, events);
    var w1 := Step(c, at, Load(call, req));
    LoadsExactly(c, at, call, req);
    StepKeepsWaits(c, at, Load(call, req));
    var w2 := Step(c, w1, Save(call));
    SavesExactly(c, w1, call);
    StepKeepsWaits(c, w1, Save(call));
    var w3 := Step(c, w2, Update(call));
    UpdatesExactly(c, w2, call);
    var all := [Load(call, req), Save(call), Update(call)];
    assert all[1..] == [Save(call), Update(call)] && all[1..][1..] == [Update(call)] && [Update(call)][1..] == [];
    assert Run(c, w2, [Update(call)]) == Run(c, w3, []);
    assert Run(c, w1, all[1..]) == Run(c, w2, [Update(call)]);
  }
}
