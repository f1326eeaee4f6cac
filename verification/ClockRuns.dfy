/**
 A visit with a clock is a visit of the replay functions, with the back-offs that its clock found
 still running; and what it wrote keeps its distance.
 */
module ClockRuns {
  import opened Retry
  import opened Chapters
  import opened Runner
  import opened Clocks
  import Resume

  /** The visit that had come to t went on to f, and nothing was held up to ordinal n since. */
  ghost predicate PrecedesFrom(t: Timed, f: Timed, n: int) {
    && t.s.log <= f.s.log && t.stamps <= f.stamps
    && (forall m :: m in f.held && m <= n <==> m in t.held && m <= n)
    && (forall m :: m in t.held && m <= n ==> f.held[m] == t.held[m])
    && (forall i :: |t.stamps| <= i < |f.stamps| ==> t.now <= f.stamps[i].created)
  }

  ghost predicate Precedes(t: Timed, f: Timed) {
    PrecedesFrom(t, f, t.s.pos)
  }

  /** Chapter n answers to a failure before it and was written too early. */
  predicate Early(f: Timed, job: RetryPolicy, n: nat) {
    && 0 < n < |f.s.log| == |f.stamps|
    && if f.s.log[n - 1].JobOutcome? then
         f.stamps[n].created < f.stamps[n - 1].created + ComputeBackoff(job, AttemptOf(f.s.log[n - 1].attempt))
       else
         && f.s.log[n].TaskOutcome? && f.s.log[n].attempt > 1
         && f.stamps[n].created < f.stamps[n - 1].created + ComputeBackoff(f.stamps[n].policy, f.s.log[n].attempt - 1)
  }

  /** What the replay functions are told about back-offs.  A chapter this visit wrote too early
      would count as written against the rule. */
  function Oracle(k: Course, f: Timed, job: RetryPolicy, from: nat): Env {
    Env(k.outcome, (n: nat) => n in f.held || (n >= from && Early(f, job, n)))
  }

  /** Everything from ordinal `from` on is this visit's own. */
  ghost predicate Under(t: Timed, f: Timed, from: nat) {
    && Sane(t) && HeldBehind(t) && Sane(f) && from <= |t.s.log|
    && (t.s.pos == |t.s.log| || |t.s.log| == from)
  }

  /** The back-off before this attempt is over. */
  ghost predicate Due(t: Timed, p: RetryPolicy, attempt: nat)
    requires Sane(t)
  {
    t.s.pos == |t.s.log| && attempt > 1 ==>
      && t.s.pos > 0 && !t.s.log[t.s.pos - 1].JobOutcome?
      && t.stamps[t.s.pos - 1].created + ComputeBackoff(p, attempt - 1) <= t.now
  }

  lemma PassesWhenDue(k: Course, replay: bool, p: RetryPolicy, attempt: nat, n: nat, now: int, created: Option<int>)
    requires created.Some? ==> created.value <= now
    ensures
      var pass := Pass(k, replay, p, attempt, n, now, created);
      pass.Some? ==>
        && pass.value >= now
        && (created.Some? ==> created.value + ComputeBackoff(p, attempt) <= pass.value)
        && (created.None? ==> now + ComputeBackoff(p, attempt) <= pass.value)
  {
  }

  lemma PrecedesJoins(t: Timed, u: Timed, f: Timed)
    requires Precedes(t, u) && Precedes(u, f) && t.s.pos <= u.s.pos && t.now <= u.now
    ensures Precedes(t, f)
  {
    forall i | |t.stamps| <= i < |f.stamps| ensures t.now <= f.stamps[i].created {
      if i < |u.stamps| { assert f.stamps[i] == u.stamps[i]; }
    }
  }

  lemma GoesOn(k: Course, f: Timed, job: RetryPolicy, from: nat, u: Timed)
    requires Under(u, f, from) && Precedes(u, f) && u.s.pos !in u.held
    requires u.s.pos == |u.s.log| ==> !Early(f, job, u.s.pos)
    ensures !Oracle(k, f, job, from).waiting(u.s.pos)
  {
  }

  lemma Stays(k: Course, f: Timed, job: RetryPolicy, from: nat, u: Timed, n: nat)
    requires (Precedes(u, f) && n in u.held && n <= u.s.pos) || n in f.held
    ensures Oracle(k, f, job, from).waiting(n)
  {
  }

  /** A chapter written once a task's back-off was over is not early. */
  lemma RetryIsNotEarly(f: Timed, job: RetryPolicy, t: Timed, p: RetryPolicy, attempt: nat)
    requires Sane(t) && Sane(f) && Precedes(t, f) && t.s.pos == |t.s.log| && attempt > 1 && Due(t, p, attempt)
    requires |t.s.log| < |f.s.log| ==>
      f.stamps[t.s.pos].policy == p && (f.s.log[t.s.pos].TaskOutcome? ==> f.s.log[t.s.pos].attempt == attempt)
    ensures !Early(f, job, t.s.pos)
  {
    hide ComputeBackoff;
    if |t.s.log| < |f.s.log| {
      assert f.s.log[t.s.pos - 1] == t.s.log[t.s.pos - 1] && f.stamps[t.s.pos - 1] == t.stamps[t.s.pos - 1];
    }
  }

  /** Neither is what a job attempt writes first. */
  lemma AttemptIsNotEarly(f: Timed, job: RetryPolicy, u: Timed)
    requires Sane(u) && Sane(f) && Precedes(u, f) && u.s.pos == |u.s.log| && u.s.pos > 0
    requires
      var ch := u.s.log[u.s.pos - 1];
      ch.JobOutcome? && u.stamps[u.s.pos - 1].created + ComputeBackoff(job, AttemptOf(ch.attempt)) <= u.now
    ensures !Early(f, job, u.s.pos)
  {
    hide ComputeBackoff;
    if |u.s.log| < |f.s.log| {
      assert f.s.log[u.s.pos - 1] == u.s.log[u.s.pos - 1] && f.stamps[u.s.pos - 1] == u.stamps[u.s.pos - 1];
    }
  }

  lemma SkipPrecedes(t: Timed, u: Timed)
    requires Sane(t) && HeldBehind(t) && u == t.(s := t.s.(pos := t.s.pos + 1), now := u.now) && u.now >= t.now
    ensures Precedes(t, u)
  {
  }

  lemma HeldPrecedes(t: Timed, u: Timed, p: RetryPolicy)
    requires Sane(t) && HeldBehind(t) && u == t.(s := t.s.(pos := t.s.pos + 1), held := t.held[t.s.pos + 1 := p])
    ensures Precedes(t, u)
  {
  }

  lemma OracleTellsOutcomes(k: Course, f: Timed, job: RetryPolicy, from: nat)
    ensures Oracle(k, f, job, from).outcome == k.outcome
  {
  }

  lemma SameLogPrecedes(t: Timed, u: Timed, f: Timed)
    requires Precedes(u, f) && u == t.(s := u.s) && u.s.log == t.s.log && u.s.pos == t.s.pos
    ensures Precedes(t, f)
  {
  }

  lemma NowPrecedesNow(t: Timed)
    ensures Precedes(t, t)
  {
  }

  lemma HeldHere(t: Timed, p: RetryPolicy)
    requires HeldBehind(t)
    ensures Precedes(t, t.(held := t.held[t.s.pos + 1 := p]))
    ensures Precedes(t.(held := t.held[t.s.pos + 1 := p]), t.(held := t.held[t.s.pos + 1 := p]))
  {
  }

  lemma LaterPrecedes(u: Timed, v: Timed, f: Timed)
    requires Precedes(v, f) && v == u.(now := v.now) && u.now <= v.now
    ensures Precedes(u, f)
  {
  }

  /** What was held in front of u was not held before it. */
  lemma LaterHeldPrecedes(u: Timed, p: RetryPolicy, f: Timed)
    requires Sane(u) && HeldBehind(u) && Precedes(Held(u, p), f)
    ensures PrecedesFrom(u, f, u.s.pos - 1)
  {
  }

  lemma PrecedesJustBefore(u: Timed, f: Timed)
    requires Precedes(u, f)
    ensures PrecedesFrom(u, f, u.s.pos - 1)
  {
  }

  lemma WrittenPrecedes(k: Course, t: Timed, ran: seq<nat>, p: RetryPolicy, ch: Chapter, f: Timed)
    requires Sane(t) && HeldBehind(t) && t.s.pos == |t.s.log| && t.s.budget > 0
    requires PrecedesFrom(Stamped(k, t.(s := t.s.(ran := ran)), p, ch), f, t.s.pos)
    ensures Precedes(t, f)
    ensures f.s.log[t.s.pos] == ch && f.stamps[t.s.pos].policy == p
  {
    var u := Stamped(k, t.(s := t.s.(ran := ran)), p, ch);
    assert f.s.log[t.s.pos] == u.s.log[t.s.pos] && f.stamps[t.s.pos] == u.stamps[t.s.pos];
  }

  lemma RetryIsNotWritten(f: Timed, job: RetryPolicy, n: nat)
    requires n >= |f.s.log|
    ensures !Early(f, job, n)
  {
  }

  lemma TimedTaskReads(c: Config, k: Course, p: RetryPolicy, task: string, input: string, attempt: nat, t: Timed)
    requires Sane(t) && HeldBehind(t) && t.s.pos < |t.s.log|
    ensures TimedTask(c, k, p, task, input, attempt, t) ==
      var u := t.(s := t.s.(pos := t.s.pos + 1));
      match Read(p, input, t.s.log[t.s.pos], t.s.pos)
      case Reply(ret) => TimedTaskStep(Returned(ret), u)
      case Again(next) =>
        match Pass(k, c.replay, p, next - 1, u.s.pos, t.now, Some(t.stamps[t.s.pos].created))
        case Some(now) => TimedTask(c, k, p, task, input, next, u.(now := now))
        case None =>
          if c.replay then TimedTaskStep(Returned(Missed(Miss(t.s.pos, AwaitNotReady))), Held(u, p))
          else TimedTaskStep(Halted(Parked(u.s.pos)), Held(u, p))
  {
  }

  lemma TimedTaskRuns(c: Config, k: Course, p: RetryPolicy, task: string, input: string, attempt: nat, t: Timed)
    requires Sane(t) && HeldBehind(t) && t.s.pos == |t.s.log|
    ensures TimedTask(c, k, p, task, input, attempt, t) == TimedRun(c, k, p, task, input, attempt, t)
  {
  }

  lemma {:induction false} TaskErases(c: Config, k: Course, f: Timed, job: RetryPolicy, from: nat, p: RetryPolicy,
      task: string, input: string, attempt: nat, t: Timed)
    requires Under(t, f, from) && Due(t, p, attempt) && attempt >= 1
    requires
      var r := TimedTask(c, k, p, task, input, attempt, t);
      Precedes(r.state, f) && (r.reply.Halted? || c.replay ==> f.s.log == r.state.s.log)
    ensures
      var r := TimedTask(c, k, p, task, input, attempt, t);
      && TaskLoop(c, Oracle(k, f, job, from), p, task, input, attempt, t.s) == TaskStep(r.reply, r.state.s)
      && Precedes(t, f)
      && (t.s.pos == |t.s.log| && attempt > 1 ==> !Early(f, job, t.s.pos))
    decreases |t.s.log| - t.s.pos, AttemptsLeft(p, attempt), 1
  {
    hide Early, ComputeBackoff, Oracle, IsRetryable, TaskLoop, TimedTask, TimedRun, Pass, PrecedesFrom, Advances;
    if t.s.pos == |t.s.log| {
      TimedTaskRuns(c, k, p, task, input, attempt, t);
      RunErases(c, k, f, job, from, p, task, input, attempt, t);
    } else {
      TimedTaskReads(c, k, p, task, input, attempt, t);
      Resume.TaskReads(c, Oracle(k, f, job, from), p, task, input, attempt, t.s);
      var verdict := Read(p, input, t.s.log[t.s.pos], t.s.pos);
      var u := t.(s := t.s.(pos := t.s.pos + 1));
      if verdict.Again? {
        PassesWhenDue(k, c.replay, p, verdict.attempt - 1, u.s.pos, t.now, Some(t.stamps[t.s.pos].created));
        var pass := Pass(k, c.replay, p, verdict.attempt - 1, u.s.pos, t.now, Some(t.stamps[t.s.pos].created));
        if pass.Some? {
          TaskErases(c, k, f, job, from, p, task, input, verdict.attempt, u.(now := pass.value));
          GoesOn(k, f, job, from, u.(now := pass.value));
          SkipPrecedes(t, u.(now := pass.value));
          PrecedesJoins(t, u.(now := pass.value), f);
        } else {
          Stays(k, f, job, from, Held(u, p), u.s.pos);
          HeldPrecedes(t, Held(u, p), p);
          PrecedesJoins(t, Held(u, p), f);
        }
      } else {
        SkipPrecedes(t, u);
        PrecedesJoins(t, u, f);
      }
    }
  }

  lemma {:induction false} RunErases(c: Config, k: Course, f: Timed, job: RetryPolicy, from: nat, p: RetryPolicy,
      task: string, input: string, attempt: nat, t: Timed)
    requires Under(t, f, from) && Due(t, p, attempt) && attempt >= 1 && t.s.pos == |t.s.log|
    requires
      var r := TimedRun(c, k, p, task, input, attempt, t);
      Precedes(r.state, f) && (r.reply.Halted? || c.replay ==> f.s.log == r.state.s.log)
    ensures
      var r := TimedRun(c, k, p, task, input, attempt, t);
      && TaskLoop(c, Oracle(k, f, job, from), p, task, input, attempt, t.s) == TaskStep(r.reply, r.state.s)
      && Precedes(t, f)
      && (attempt > 1 ==> !Early(f, job, t.s.pos))
    decreases 0, AttemptsLeft(p, attempt), 0
  {
    hide Early, ComputeBackoff, IsRetryable, TaskLoop, TimedTask, Pass, Advances, PrecedesFrom, Oracle, HashOf;
    var e := Oracle(k, f, job, from);
    if c.replay || task !in c.local || t.s.budget == 0 {
      Resume.TaskStops(c, e, p, task, input, attempt, t.s);
      SameLogPrecedes(t, TimedRun(c, k, p, task, input, attempt, t).state, f);
      RetryIsNotWritten(f, job, t.s.pos);
    } else {
      OracleTellsOutcomes(k, f, job, from);
      Resume.TaskRuns(c, e, p, task, input, attempt, t.s);
      var ch := TaskOutcome(task, HashOf(input), attempt, k.outcome(t.s.pos));
      var u := Stamped(k, t.(s := t.s.(ran := t.s.ran + [t.s.pos])), p, ch);
      var verdict := Judge(p, attempt, k.outcome(t.s.pos));
      if verdict.Again? {
        PassesWhenDue(k, false, p, attempt, u.s.pos, u.now, None);
        var pass := Pass(k, false, p, attempt, u.s.pos, u.now, None);
        if pass.Some? {
          var v := u.(now := pass.value);
          TaskErases(c, k, f, job, from, p, task, input, verdict.attempt, v);
          GoesOn(k, f, job, from, v);
          LaterPrecedes(u, v, f);
          PrecedesJustBefore(u, f);
        } else {
          Stays(k, f, job, from, Held(u, p), u.s.pos);
          LaterHeldPrecedes(u, p, f);
        }
      }
      if verdict.Reply? { PrecedesJustBefore(u, f); }
      WrittenPrecedes(k, t, t.s.ran + [t.s.pos], p, ch, f);
      if attempt > 1 { RetryIsNotEarly(f, job, t, p, attempt); }
    }
  }

  lemma {:induction false} WorkerErases(c: Config, k: Course, f: Timed, from: nat, policy: RunPolicy, input: string,
      hist: seq<Return>, t: Timed)
    requires Under(t, f, from)
    requires
      var r := TimedWorker(c, k, policy, input, hist, t);
      Precedes(r.state, f) && (r.TimedStopped? || c.replay ==> f.s.log == r.state.s.log)
    ensures
      var r := TimedWorker(c, k, policy, input, hist, t);
      && WorkerLoop(c, Oracle(k, f, policy.retry, from), policy, input, hist, t.s)
           == (match r
               case TimedFinished(result, u) => Finished(result, u.s)
               case TimedStopped(stop, u) => Stopped(stop, u.s))
      && Precedes(t, f)
    decreases |t.s.log| - t.s.pos + t.s.budget
  {
    match c.program(input, hist)
    case Finish(_) =>
    case DoTask(over, task, taskInput) =>
      var p := Effective(over, policy);
      var u := TimedTask(c, k, p, task, taskInput, 1, t);
      if u.reply.Returned? {
        WorkerErases(c, k, f, from, policy, input, hist + [u.reply.ret], u.state);
      }
      TaskErases(c, k, f, policy.retry, from, p, task, taskInput, 1, t);
  }

  lemma {:induction false} JobErases(c: Config, k: Course, f: Timed, from: nat, policy: RunPolicy, input: string,
      attempt: nat, t: Timed)
    requires Under(t, f, from) && attempt >= 1 && f == TimedJob(c, k, policy, input, attempt, t).state
    ensures JobLoop(c, Oracle(k, f, policy.retry, from), policy, input, attempt, t.s)
         == Visit(TimedJob(c, k, policy, input, attempt, t).stop, f.s)
    ensures Precedes(t, f)
    decreases |t.s.log| - t.s.pos, AttemptsLeft(policy.retry, attempt), 2
  {
    if t.s.pos < |t.s.log| && t.s.log[t.s.pos].JobOutcome? {
      CachedErases(c, k, f, from, policy, input, t);
    } else {
      var w := TimedWorker(c, k, policy, input, [], t);
      if w.TimedFinished? {
        SettleErases(c, k, f, from, policy, input, attempt, w.result, w.state);
      }
      WorkerErases(c, k, f, from, policy, input, [], t);
    }
  }

  lemma {:induction false} SettleErases(c: Config, k: Course, f: Timed, from: nat, policy: RunPolicy, input: string,
      attempt: nat, result: JobResult, t: Timed)
    requires Under(t, f, from) && attempt >= 1 && f == TimedSettle(c, k, policy, input, attempt, result, t).state
    ensures JobSettle(c, Oracle(k, f, policy.retry, from), policy, input, attempt, result, t.s)
         == Visit(TimedSettle(c, k, policy, input, attempt, result, t).stop, f.s)
    ensures Precedes(t, f)
    decreases |t.s.log| - t.s.pos, AttemptsLeft(policy.retry, attempt), 1
  {
    hide Early, ComputeBackoff, IsRetryable, JobLoop, TimedJob, TimedCached, JobCached, Pass, Advances, PrecedesFrom,
      Oracle, HashOf;
    if result.Nothing? || (t.s.pos == |t.s.log| && (c.replay || t.s.budget == 0)) {
      NowPrecedesNow(t);
    } else if t.s.pos < |t.s.log| {
      CachedErases(c, k, f, from, policy, input, t);
    } else {
      var e := Oracle(k, f, policy.retry, from);
      Resume.SettleAgain(c, e, policy, input, attempt, result, t.s);
      var ch := JobOutcome(HashOf(input), attempt, Recorded(result));
      var u := Stamped(k, t, policy.retry, ch);
      var verdict := JudgeJob(policy.retry, attempt, Recorded(result));
      if verdict.RetryAs? {
        PassesWhenDue(k, false, policy.retry, attempt, u.s.pos, u.now, None);
        var pass := Pass(k, false, policy.retry, attempt, u.s.pos, u.now, None);
        if pass.Some? {
          var v := u.(now := pass.value);
          JobErases(c, k, f, from, policy, input, verdict.attempt, v);
          AttemptIsNotEarly(f, policy.retry, v);
          GoesOn(k, f, policy.retry, from, v);
          LaterPrecedes(u, v, f);
          PrecedesJustBefore(u, f);
        } else {
          NowPrecedesNow(Held(u, policy.retry));
          Stays(k, f, policy.retry, from, Held(u, policy.retry), u.s.pos);
          LaterHeldPrecedes(u, policy.retry, f);
        }
      } else {
        NowPrecedesNow(u);
        PrecedesJustBefore(u, f);
      }
      assert t.(s := t.s.(ran := t.s.ran)) == t;
      WrittenPrecedes(k, t, t.s.ran, policy.retry, ch, f);
    }
  }

  lemma {:induction false} CachedErases(c: Config, k: Course, f: Timed, from: nat, policy: RunPolicy, input: string,
      t: Timed)
    requires Under(t, f, from) && t.s.pos < |t.s.log| && f == TimedCached(c, k, policy, input, t).state
    ensures JobCached(c, Oracle(k, f, policy.retry, from), policy, input, t.s)
         == Visit(TimedCached(c, k, policy, input, t).stop, f.s)
    ensures Precedes(t, f)
    decreases |t.s.log| - t.s.pos, 0, 0
  {
    hide Early, ComputeBackoff, IsRetryable, JobLoop, TimedJob, Pass, Advances, PrecedesFrom, Oracle, HashOf;
    var verdict := ReadJob(policy.retry, input, t.s.log[t.s.pos]);
    if verdict.RetryAs? {
      var u := t.(s := t.s.(pos := t.s.pos + 1));
      PassesWhenDue(k, c.replay, policy.retry, verdict.attempt - 1, u.s.pos, t.now, Some(t.stamps[t.s.pos].created));
      var pass := Pass(k, c.replay, policy.retry, verdict.attempt - 1, u.s.pos, t.now, Some(t.stamps[t.s.pos].created));
      if pass.Some? {
        var v := u.(now := pass.value);
        JobErases(c, k, f, from, policy, input, verdict.attempt, v);
        if v.s.pos == |v.s.log| { AttemptIsNotEarly(f, policy.retry, v); }
        GoesOn(k, f, policy.retry, from, v);
        SkipPrecedes(t, v);
        PrecedesJoins(t, v, f);
      } else {
        HeldHere(t, policy.retry);
        Stays(k, f, policy.retry, from, t, u.s.pos);
      }
    } else {
      NowPrecedesNow(t);
      SameLogPrecedes(t, t, f);
    }
  }
}
