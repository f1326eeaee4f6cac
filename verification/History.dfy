/**
 The grammar of a job's log: which `DoTask` call and which job attempt each chapter belongs to.
 Because of crash simulation it is enough to follow one uninterrupted visit.
 */
module History {
  import opened Retry
  import opened Chapters
  import opened Runner
  import opened Resume
  import opened Crash

  /** The chapters one `DoTask` call wrote, and the effective policy it ran under. */
  datatype CallRecord = CallRecord(policy: RetryPolicy, chapters: seq<Chapter>)

  /** One run of the job worker: its calls, and its recorded outcome if it got that far. */
  datatype AttemptRecord = AttemptRecord(calls: seq<CallRecord>, outcome: Option<Chapter>)

  /** The calls of a live job worker that starts at the end of the log. */
  function WorkerCalls(c: Config, e: Env, policy: RunPolicy, input: string, hist: seq<Return>,
      s: State): seq<CallRecord>
    requires !c.replay && s.pos == |s.log|
    decreases s.budget
  {
    match c.program(input, hist)
    case Finish(_) => []
    case DoTask(over, task, taskInput) =>
      var p := Effective(over, policy);
      var t := TaskLoop(c, e, p, task, taskInput, 1, s);
      var chapters := t.state.log[|s.log|..];
      if chapters == [] then []
      else if t.reply.Halted? then [CallRecord(p, chapters)]
      else [CallRecord(p, chapters)] + WorkerCalls(c, e, policy, input, hist + [t.reply.ret], t.state)
  }

  function JobHistory(c: Config, e: Env, policy: RunPolicy, input: string, attempt: nat, s: State): seq<AttemptRecord>
    requires !c.replay && s.pos == |s.log|
    decreases s.budget
  {
    var calls := WorkerCalls(c, e, policy, input, [], s);
    var w := WorkerLoop(c, e, policy, input, [], s);
    if w.Stopped? || w.result.Nothing? || w.state.budget == 0 then [AttemptRecord(calls, None)]
    else
      var ch := JobOutcome(HashOf(input), attempt, Recorded(w.result));
      var u := Write(w.state, ch);
      var verdict := JudgeJob(policy.retry, attempt, Recorded(w.result));
      [AttemptRecord(calls, Some(ch))] +
        if verdict.RetryAs? && !e.waiting(u.pos) then JobHistory(c, e, policy, input, verdict.attempt, u) else []
  }

  function Written(calls: seq<CallRecord>): seq<Chapter> {
    if calls == [] then [] else calls[0].chapters + Written(calls[1..])
  }

  function OfAttempt(a: AttemptRecord): seq<Chapter> {
    Written(a.calls) + if a.outcome.Some? then [a.outcome.value] else []
  }

  function Flat(h: seq<AttemptRecord>): seq<Chapter> {
    if h == [] then [] else OfAttempt(h[0]) + Flat(h[1..])
  }

  /** Consecutive attempts of one call from attempt `from` on: every attempt but the last
      failed retryably with attempts left, and in a whole chain the last one is final. */
  ghost predicate Chain(p: RetryPolicy, from: nat, chapters: seq<Chapter>, whole: bool) {
    && chapters != [] && chapters[0].TaskOutcome?
    && (forall i :: 0 <= i < |chapters| ==>
          && chapters[i].TaskOutcome? && chapters[i].attempt == from + i
          && chapters[i].task == chapters[0].task && chapters[i].hash == chapters[0].hash)
    && (forall i :: 0 <= i < |chapters| - 1 ==> Judge(p, from + i, chapters[i].outcome).Again?)
    && (whole ==> Judge(p, from + |chapters| - 1, chapters[|chapters| - 1].outcome).Reply?)
  }

  /** A chain never has more attempts than its policy allows. */
  lemma ChainIsBounded(p: RetryPolicy, chapters: seq<Chapter>, whole: bool)
    requires Chain(p, 1, chapters, whole) && p.maximumAttempts >= 1
    ensures |chapters| <= p.maximumAttempts
  {
    if |chapters| > 1 {
      assert Judge(p, 1 + (|chapters| - 2), chapters[|chapters| - 2].outcome).Again?;
    }
  }

  /** Every call is a whole chain from attempt 1; the very last may still be under way. */
  ghost predicate GoodCalls(calls: seq<CallRecord>, whole: bool) {
    forall i :: 0 <= i < |calls| ==>
      calls[i].policy.maximumAttempts >= 1 && Chain(calls[i].policy, 1, calls[i].chapters, whole || i < |calls| - 1)
  }

  /** Job attempts numbered from `n` on: all but the last failed retryably, and only the last
      may lack an outcome. */
  ghost predicate GoodHistory(h: seq<AttemptRecord>, p: RetryPolicy, hash: string, n: nat) {
    h != [] ==>
      && GoodCalls(h[0].calls, h[0].outcome.Some?)
      && match h[0].outcome
         case None => h == [h[0]]
         case Some(ch) =>
           && ch.JobOutcome? && ch.hash == hash && ch.attempt == n
           && (|h| > 1 ==> JudgeJob(p, n, ch.outcome) == RetryAs(n + 1))
           && GoodHistory(h[1..], p, hash, n + 1)
  }

  function AnswerOf(o: Outcome): Return {
    match o
    case Ok(data) => Value(data)
    case Failed(err) => Error(err)
  }

  /** What a call that has run its chain to the end returned to the job worker. */
  function Answer(call: CallRecord): Return {
    if call.chapters == [] || !call.chapters[|call.chapters| - 1].TaskOutcome? then NoHash(0)
    else AnswerOf(call.chapters[|call.chapters| - 1].outcome)
  }

  /** The records are the calls the program itself makes, one after another: the task and the input
      it asks for, under the policy its call and its job give, with the answers of the calls before
      it in hand.  No call has more attempts than that policy allows. */
  ghost predicate Made(c: Config, policy: RunPolicy, input: string, hist: seq<Return>, calls: seq<CallRecord>,
      whole: bool)
    decreases |calls|
  {
    calls == [] ||
    (&& c.program(input, hist).DoTask?
     && var asked := c.program(input, hist);
        var call := calls[0];
        && call.policy == Effective(asked.policy, policy)
        && Chain(call.policy, 1, call.chapters, whole || |calls| > 1)
        && call.chapters[0].task == asked.task && call.chapters[0].hash == HashOf(asked.input)
        && |call.chapters| <= call.policy.maximumAttempts
        && Made(c, policy, input, hist + [Answer(call)], calls[1..], whole))
  }

  /** With the answers of all its calls the program finishes, and `o` is what is recorded of that. */
  ghost predicate Ends(c: Config, input: string, hist: seq<Return>, calls: seq<CallRecord>, o: Outcome)
    decreases |calls|
  {
    if calls == [] then
      && c.program(input, hist).Finish?
      && !c.program(input, hist).result.Nothing? && Recorded(c.program(input, hist).result) == o
    else Ends(c, input, hist + [Answer(calls[0])], calls[1..], o)
  }

  /** Every job attempt is a run of the program from its start. */
  ghost predicate ByProgram(c: Config, policy: RunPolicy, input: string, h: seq<AttemptRecord>, whole: bool) {
    forall i :: 0 <= i < |h| ==>
      && Made(c, policy, input, [], h[i].calls, whole || h[i].outcome.Some?)
      && (h[i].outcome.Some? ==>
            h[i].outcome.value.JobOutcome? && Ends(c, input, [], h[i].calls, h[i].outcome.value.outcome))
  }

  lemma {:induction false} TaskWritesChain(c: Config, e: Env, p: RetryPolicy, task: string, input: string,
      attempt: nat, s: State)
    requires !c.replay && s.pos == |s.log|
    ensures
      var r := TaskLoop(c, e, p, task, input, attempt, s);
      var chapters := r.state.log[|s.log|..];
      && (chapters == [] ==> r.reply.Halted?)
      && (chapters != [] ==>
            && Chain(p, attempt, chapters, r.reply.Returned?)
            && chapters[0].task == task && chapters[0].hash == HashOf(input))
      && (chapters != [] && r.reply.Returned? ==> r.reply.ret == AnswerOf(chapters[|chapters| - 1].outcome))
    decreases AttemptsLeft(p, attempt)
  {
    hide Chain, TaskLoop, IsRetryable;
    if task !in c.local || s.budget == 0 {
      TaskStops(c, e, p, task, input, attempt, s);
    } else {
      TaskRuns(c, e, p, task, input, attempt, s);
      var o := e.outcome(s.pos);
      var ch := TaskOutcome(task, HashOf(input), attempt, o);
      var u := Write(s.(ran := s.ran + [s.pos]), ch);
      var r := TaskLoop(c, e, p, task, input, attempt, s);
      var verdict := Judge(p, attempt, o);
      assert u.log <= r.state.log;
      var rest := r.state.log[|u.log|..];
      assert r.state.log[|s.log|..] == [ch] + rest;
      if verdict.Again? && !e.waiting(u.pos) {
        TaskWritesChain(c, e, p, task, input, verdict.attempt, u);
        ChainGrows(p, ch, rest, r.reply.Returned?);
      } else {
        assert rest == [];
        ChainOfOne(p, ch, r.reply.Returned?);
      }
    }
  }

  lemma ChainOfOne(p: RetryPolicy, ch: Chapter, whole: bool)
    requires ch.TaskOutcome? && ch.attempt >= 0 && (whole ==> Judge(p, ch.attempt, ch.outcome).Reply?)
    ensures Chain(p, ch.attempt, [ch], whole)
  {
  }

  lemma ChainGrows(p: RetryPolicy, ch: Chapter, rest: seq<Chapter>, whole: bool)
    requires ch.TaskOutcome? && ch.attempt >= 0 && Judge(p, ch.attempt, ch.outcome).Again?
    requires rest == [] ==> !whole
    requires rest != [] ==> Chain(p, ch.attempt + 1, rest, whole) && rest[0].task == ch.task && rest[0].hash == ch.hash
    ensures Chain(p, ch.attempt, [ch] + rest, whole)
  {
    var chapters := [ch] + rest;
    forall i | 0 <= i < |chapters|
      ensures chapters[i].TaskOutcome? && chapters[i].attempt == ch.attempt + i && chapters[i].task == ch.task
      ensures chapters[i].hash == ch.hash
    {
      if i > 0 {
        assert chapters[i] == rest[i - 1];
      }
    }
    forall i | 0 <= i < |chapters| - 1
      ensures Judge(p, ch.attempt + i, chapters[i].outcome).Again?
    {
      if i > 0 {
        assert chapters[i] == rest[i - 1] && Judge(p, ch.attempt + 1 + (i - 1), rest[i - 1].outcome).Again?;
      }
    }
  }

  lemma CallsGrow(call: CallRecord, rest: seq<CallRecord>, whole: bool)
    requires call.policy.maximumAttempts >= 1 && Chain(call.policy, 1, call.chapters, whole || rest != [])
    requires GoodCalls(rest, whole)
    ensures GoodCalls([call] + rest, whole)
  {
    var calls := [call] + rest;
    forall i | 0 <= i < |calls|
      ensures calls[i].policy.maximumAttempts >= 1
      ensures Chain(calls[i].policy, 1, calls[i].chapters, whole || i < |calls| - 1)
    {
      if i > 0 {
        assert calls[i] == rest[i - 1];
      }
    }
  }

  lemma WrittenGrows(call: CallRecord, rest: seq<CallRecord>, log: seq<Chapter>)
    ensures log + Written([call] + rest) == (log + call.chapters) + Written(rest)
  {
    assert ([call] + rest)[1..] == rest;
  }

  lemma FlatGrows(a: AttemptRecord, rest: seq<AttemptRecord>, log: seq<Chapter>)
    ensures log + Flat([a] + rest) == (log + OfAttempt(a)) + Flat(rest)
  {
    assert ([a] + rest)[1..] == rest;
  }

  lemma {:induction false} WorkerWritesCalls(c: Config, e: Env, policy: RunPolicy, input: string, hist: seq<Return>,
      s: State)
    requires !c.replay && s.pos == |s.log|
    ensures
      var r := WorkerLoop(c, e, policy, input, hist, s);
      s.log + Written(WorkerCalls(c, e, policy, input, hist, s)) == r.state.log && r.state.pos == |r.state.log|
    decreases s.budget
  {
    match c.program(input, hist)
    case Finish(_) =>
    case DoTask(over, task, taskInput) =>
      var p := Effective(over, policy);
      var t := TaskLoop(c, e, p, task, taskInput, 1, s);
      TaskWritesChain(c, e, p, task, taskInput, 1, s);
      var chapters := t.state.log[|s.log|..];
      assert s.log + chapters == t.state.log;
      if t.reply.Returned? {
        WorkerWritesCalls(c, e, policy, input, hist + [t.reply.ret], t.state);
        WrittenGrows(CallRecord(p, chapters), WorkerCalls(c, e, policy, input, hist + [t.reply.ret], t.state), s.log);
      } else if chapters != [] {
        WrittenGrows(CallRecord(p, chapters), [], s.log);
      }
  }

  lemma {:induction false} WorkerCallsAreGood(c: Config, e: Env, policy: RunPolicy, input: string, hist: seq<Return>,
      s: State)
    requires !c.replay && s.pos == |s.log|
    ensures GoodCalls(WorkerCalls(c, e, policy, input, hist, s), WorkerLoop(c, e, policy, input, hist, s).Finished?)
    decreases s.budget
  {
    match c.program(input, hist)
    case Finish(_) =>
    case DoTask(over, task, taskInput) =>
      var p := Effective(over, policy);
      var t := TaskLoop(c, e, p, task, taskInput, 1, s);
      TaskWritesChain(c, e, p, task, taskInput, 1, s);
      var chapters := t.state.log[|s.log|..];
      if t.reply.Returned? {
        var rest := WorkerCalls(c, e, policy, input, hist + [t.reply.ret], t.state);
        WorkerCallsAreGood(c, e, policy, input, hist + [t.reply.ret], t.state);
        CallsGrow(CallRecord(p, chapters), rest, WorkerLoop(c, e, policy, input, hist, s).Finished?);
      }
  }

  lemma MadeGrows(c: Config, policy: RunPolicy, input: string, hist: seq<Return>, call: CallRecord,
      rest: seq<CallRecord>, whole: bool)
    requires c.program(input, hist).DoTask?
    requires
      var asked := c.program(input, hist);
      && call.policy == Effective(asked.policy, policy) && Chain(call.policy, 1, call.chapters, whole || rest != [])
      && call.chapters[0].task == asked.task && call.chapters[0].hash == HashOf(asked.input)
    requires Made(c, policy, input, hist + [Answer(call)], rest, whole)
    ensures Made(c, policy, input, hist, [call] + rest, whole)
  {
    ChainIsBounded(call.policy, call.chapters, whole || rest != []);
    assert ([call] + rest)[1..] == rest;
  }

  lemma EndsGrows(c: Config, input: string, hist: seq<Return>, call: CallRecord, rest: seq<CallRecord>, o: Outcome)
    requires Ends(c, input, hist + [Answer(call)], rest, o)
    ensures Ends(c, input, hist, [call] + rest, o)
  {
    assert ([call] + rest)[1..] == rest;
  }

  lemma {:induction false} WorkerCallsAreMade(c: Config, e: Env, policy: RunPolicy, input: string, hist: seq<Return>,
      s: State)
    requires !c.replay && s.pos == |s.log|
    ensures
      var calls := WorkerCalls(c, e, policy, input, hist, s);
      var r := WorkerLoop(c, e, policy, input, hist, s);
      && Made(c, policy, input, hist, calls, r.Finished?)
      && (r.Finished? && !r.result.Nothing? ==> Ends(c, input, hist, calls, Recorded(r.result)))
    decreases s.budget
  {
    match c.program(input, hist)
    case Finish(_) =>
    case DoTask(over, task, taskInput) =>
      hide Chain;
      var p := Effective(over, policy);
      var t := TaskLoop(c, e, p, task, taskInput, 1, s);
      TaskWritesChain(c, e, p, task, taskInput, 1, s);
      CallsOfFirst(c, e, policy, input, hist, s);
      var call := CallRecord(p, t.state.log[|s.log|..]);
      var r := WorkerLoop(c, e, policy, input, hist, s);
      if t.reply.Returned? {
        var hist' := hist + [t.reply.ret];
        var rest := WorkerCalls(c, e, policy, input, hist', t.state);
        WorkerCallsAreMade(c, e, policy, input, hist', t.state);
        ReturnedAnswer(call, t.reply.ret);
        ChainTightens(p, call.chapters, r.Finished? || rest != []);
        MadeGrows(c, policy, input, hist, call, rest, r.Finished?);
        if r.Finished? && !r.result.Nothing? { EndsGrows(c, input, hist, call, rest, Recorded(r.result)); }
      } else if call.chapters != [] {
        MadeGrows(c, policy, input, hist, call, [], false);
      }
  }

  lemma ReturnedAnswer(call: CallRecord, ret: Return)
    requires Chain(call.policy, 1, call.chapters, true) && ret == AnswerOf(call.chapters[|call.chapters| - 1].outcome)
    ensures Answer(call) == ret
  {
  }

  lemma ChainTightens(p: RetryPolicy, chapters: seq<Chapter>, whole: bool)
    requires Chain(p, 1, chapters, true)
    ensures Chain(p, 1, chapters, whole)
  {
  }

  lemma CallsOfFirst(c: Config, e: Env, policy: RunPolicy, input: string, hist: seq<Return>, s: State)
    requires !c.replay && s.pos == |s.log| && c.program(input, hist).DoTask?
    ensures
      var asked := c.program(input, hist);
      var p := Effective(asked.policy, policy);
      var t := TaskLoop(c, e, p, asked.task, asked.input, 1, s);
      var call := CallRecord(p, t.state.log[|s.log|..]);
      WorkerCalls(c, e, policy, input, hist, s) ==
        if call.chapters == [] then []
        else [call] + if t.reply.Halted? then [] else WorkerCalls(c, e, policy, input, hist + [t.reply.ret], t.state)
  {
  }

  lemma {:induction false} JobWritesHistory(c: Config, e: Env, policy: RunPolicy, input: string, attempt: nat, s: State)
    requires !c.replay && s.pos == |s.log|
    ensures
      s.log + Flat(JobHistory(c, e, policy, input, attempt, s)) == JobLoop(c, e, policy, input, attempt, s).state.log
    decreases s.budget
  {
    var w := WorkerLoop(c, e, policy, input, [], s);
    WorkerWritesCalls(c, e, policy, input, [], s);
    var calls := WorkerCalls(c, e, policy, input, [], s);
    if w.Stopped? || w.result.Nothing? || w.state.budget == 0 {
      assert OfAttempt(AttemptRecord(calls, None)) == Written(calls);
      FlatGrows(AttemptRecord(calls, None), [], s.log);
    } else {
      var ch := JobOutcome(HashOf(input), attempt, Recorded(w.result));
      var u := Write(w.state, ch);
      var verdict := JudgeJob(policy.retry, attempt, Recorded(w.result));
      var a := AttemptRecord(calls, Some(ch));
      assert s.log + OfAttempt(a) == u.log;
      if verdict.RetryAs? && !e.waiting(u.pos) {
        JobWritesHistory(c, e, policy, input, verdict.attempt, u);
        FlatGrows(a, JobHistory(c, e, policy, input, verdict.attempt, u), s.log);
      } else {
        FlatGrows(a, [], s.log);
      }
    }
  }

  lemma {:induction false} JobHistoryIsGood(c: Config, e: Env, policy: RunPolicy, input: string, attempt: nat, s: State)
    requires !c.replay && s.pos == |s.log|
    ensures
      var h := JobHistory(c, e, policy, input, attempt, s);
      GoodHistory(h, policy.retry, HashOf(input), attempt) && h != []
    decreases s.budget
  {
    hide IsRetryable, WorkerLoop, Recorded;
    var w := WorkerLoop(c, e, policy, input, [], s);
    WorkerWritesCalls(c, e, policy, input, [], s);
    WorkerCallsAreGood(c, e, policy, input, [], s);
    if w.Finished? && !w.result.Nothing? && w.state.budget > 0 {
      var h := JobHistory(c, e, policy, input, attempt, s);
      var u := Write(w.state, JobOutcome(HashOf(input), attempt, Recorded(w.result)));
      var verdict := JudgeJob(policy.retry, attempt, Recorded(w.result));
      if verdict.RetryAs? && !e.waiting(u.pos) {
        JobHistoryIsGood(c, e, policy, input, verdict.attempt, u);
        assert h[1..] == JobHistory(c, e, policy, input, verdict.attempt, u);
      } else {
        assert h[1..] == [];
      }
    }
  }

  lemma ByProgramGrows(c: Config, policy: RunPolicy, input: string, a: AttemptRecord, rest: seq<AttemptRecord>,
      whole: bool)
    requires ByProgram(c, policy, input, [a], whole) && ByProgram(c, policy, input, rest, whole)
    ensures ByProgram(c, policy, input, [a] + rest, whole)
  {
    hide Made, Ends;
    var h := [a] + rest;
    assert [a][0] == a;
    forall i | 0 <= i < |h|
      ensures Made(c, policy, input, [], h[i].calls, whole || h[i].outcome.Some?)
      ensures h[i].outcome.Some? ==>
        h[i].outcome.value.JobOutcome? && Ends(c, input, [], h[i].calls, h[i].outcome.value.outcome)
    {
      if i > 0 { assert h[i] == rest[i - 1]; }
    }
  }

  lemma {:induction false} JobHistoryIsByProgram(c: Config, e: Env, policy: RunPolicy, input: string, attempt: nat,
      s: State)
    requires !c.replay && s.pos == |s.log|
    ensures ByProgram(c, policy, input, JobHistory(c, e, policy, input, attempt, s), false)
    decreases s.budget
  {
    hide Made, Ends;
    var w := WorkerLoop(c, e, policy, input, [], s);
    WorkerWritesCalls(c, e, policy, input, [], s);
    WorkerCallsAreMade(c, e, policy, input, [], s);
    var calls := WorkerCalls(c, e, policy, input, [], s);
    if w.Stopped? || w.result.Nothing? || w.state.budget == 0 {
      MadeLoosens(c, policy, input, [], calls, w.Finished?);
    } else {
      var ch := JobOutcome(HashOf(input), attempt, Recorded(w.result));
      var u := Write(w.state, ch);
      var verdict := JudgeJob(policy.retry, attempt, Recorded(w.result));
      var a := AttemptRecord(calls, Some(ch));
      assert ByProgram(c, policy, input, [a], false);
      if verdict.RetryAs? && !e.waiting(u.pos) {
        JobHistoryIsByProgram(c, e, policy, input, verdict.attempt, u);
        ByProgramGrows(c, policy, input, a, JobHistory(c, e, policy, input, verdict.attempt, u), false);
      } else {
        assert [a] + [] == [a];
      }
    }
  }

  lemma {:induction false} MadeLoosens(c: Config, policy: RunPolicy, input: string, hist: seq<Return>,
      calls: seq<CallRecord>, whole: bool)
    requires Made(c, policy, input, hist, calls, whole)
    ensures Made(c, policy, input, hist, calls, false)
    decreases |calls|
  {
    if calls == [] {
    } else {
      MadeLoosens(c, policy, input, hist + [Answer(calls[0])], calls[1..], whole);
    }
  }

  /** Every log a job's visits leave, crashes included, is its start chapter followed by numbered
      job attempts, each a run of the program: every call's retry chain is the one the program's
      own call would write, within that call's own maximum, and only the end may be unfinished. */
  lemma LogGrammar(c: Config, plans: seq<Plan>, start: Chapter)
    requires !c.replay && start.JobStart? && plans != []
    ensures exists h: seq<AttemptRecord> ::
      && LastVisit(c, plans, [start]).state.log == [start] + Flat(h)
      && GoodHistory(h, JobPolicy(c, start).retry, HashOf(start.input), 1) && h != []
      && ByProgram(c, JobPolicy(c, start), start.input, h, false)
  {
    CrashSimulation(c, plans, [start]);
    var once: Plan :| CouldHaveBeen(c, once, [start], LastVisit(c, plans, [start]));
    var s := State([start], 1, once.budget, []);
    JobWritesHistory(c, once.env, JobPolicy(c, start), start.input, 1, s);
    JobHistoryIsGood(c, once.env, JobPolicy(c, start), start.input, 1, s);
    JobHistoryIsByProgram(c, once.env, JobPolicy(c, start), start.input, 1, s);
    var h := JobHistory(c, once.env, JobPolicy(c, start), start.input, 1, s);
    assert LastVisit(c, plans, [start]).state.log == [start] + Flat(h);
  }

  /** No job has more attempts recorded than its policy allows. */
  lemma {:induction false} HistoryIsBounded(h: seq<AttemptRecord>, p: RetryPolicy, hash: string, n: nat)
    requires GoodHistory(h, p, hash, n) && n <= p.maximumAttempts
    ensures n + |h| - 1 <= p.maximumAttempts
    decreases |h|
  {
    if |h| > 1 {
      HistoryIsBounded(h[1..], p, hash, n + 1);
    }
  }
}
