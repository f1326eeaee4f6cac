/**
 Whole jobs on the time line: back-offs are kept across crashes and policies, and nothing waits
 longer than it must.
 */
module Timelines {
  import opened Retry
  import opened Chapters
  import opened Runner
  import opened Crash
  import opened History
  import opened Backoff
  import opened Replay
  import opened Clocks
  import opened ClockRuns
  import opened TimedHistories

  /** A log with its stamps, at a moment. */
  datatype Story = Story(log: seq<Chapter>, stamps: seq<Stamp>, now: int)

  function StoryOf(t: Timed): Story {
    Story(t.s.log, t.stamps, t.now)
  }

  ghost predicate ArrivesAt(action: Action, policy: RunPolicy, p: RetryPolicy) {
    action.DoTask? && p == Effective(action.policy, policy)
  }

  /** The policies by which a failure in this chapter is tried again: the job's for a job attempt,
      and for a task that of a call the program makes with this input. */
  ghost predicate RetriedBy(c: Config, policy: RunPolicy, input: string, ch: Chapter, p: RetryPolicy) {
    if ch.JobOutcome? then p == policy.retry
    else exists hist: seq<Return> :: AsksFor(c.program(input, hist), policy, ch, p)
  }

  ghost predicate AsksFor(action: Action, policy: RunPolicy, ch: Chapter, p: RetryPolicy) {
    ArrivesAt(action, policy, p) && !ch.JobStart? && HashOf(action.input) == ch.hash
  }

  /** The chapter holds a failure that is tried again under p. */
  predicate TriedAgain(ch: Chapter, p: RetryPolicy) {
    && !ch.JobStart? && ch.outcome.Failed? && IsRetryable(ch.outcome.err, p)
    && AttemptOf(ch.attempt) < p.maximumAttempts
  }

  /** Chapter n - 1 holds a failure that is tried again, and the back-off after it is still running. */
  ghost predicate Running(st: Story, n: nat, p: RetryPolicy)
    requires 0 < n <= |st.log| == |st.stamps|
  {
    && TriedAgain(st.log[n - 1], p)
    && st.now < st.stamps[n - 1].created + ComputeBackoff(p, AttemptOf(st.log[n - 1].attempt))
  }

  /** What the visit found still running between t and u. */
  ghost predicate Accounts(c: Config, policy: RunPolicy, input: string, t: Timed, u: Timed) {
    && Sane(t) && Sane(u) && t.s.log <= u.s.log && Later(t, u)
    && (forall n :: n in u.held ==>
          (n in t.held && t.held[n] == u.held[n])
          || (&& 0 < n <= |u.s.log| && RetriedBy(c, policy, input, u.s.log[n - 1], u.held[n])
              && (n <= |t.s.log| ==> Running(StoryOf(t), n, u.held[n]))))
  }

  lemma AccountsJoin(c: Config, policy: RunPolicy, input: string, t: Timed, u: Timed, v: Timed)
    requires Accounts(c, policy, input, t, u) && Accounts(c, policy, input, u, v)
    ensures Accounts(c, policy, input, t, v)
  {
    hide RetriedBy, ComputeBackoff;
    forall n | n in v.held && !(n in t.held && t.held[n] == v.held[n])
      ensures 0 < n <= |v.s.log| && RetriedBy(c, policy, input, v.s.log[n - 1], v.held[n])
      ensures n <= |t.s.log| ==> Running(StoryOf(t), n, v.held[n])
    {
      if n in u.held && u.held[n] == v.held[n] {
        assert v.s.log[n - 1] == u.s.log[n - 1];
      } else if n <= |t.s.log| {
        assert Running(StoryOf(u), n, v.held[n]);
        assert u.s.log[n - 1] == t.s.log[n - 1] && u.stamps[n - 1] == t.stamps[n - 1];
      }
    }
  }

  lemma NothingAccounts(c: Config, policy: RunPolicy, input: string, t: Timed, u: Timed)
    requires Sane(t) && Sane(u) && u.s.log == t.s.log && Later(t, u) && u.stamps == t.stamps && u.held == t.held
    ensures Accounts(c, policy, input, t, u)
  {
  }

  lemma WritingAccounts(c: Config, policy: RunPolicy, input: string, k: Course, t: Timed, ran: seq<nat>, p: RetryPolicy,
      ch: Chapter)
    requires Sane(t) && t.s.budget > 0 && t.s.pos == |t.s.log|
    ensures Accounts(c, policy, input, t, Stamped(k, t.(s := t.s.(ran := ran)), p, ch))
  {
  }

  /** A back-off that was looked at and found running. */
  lemma HoldingAccounts(c: Config, policy: RunPolicy, input: string, k: Course, replay: bool, t: Timed, u: Timed,
      p: RetryPolicy)
    requires Sane(t) && t.s.pos < |t.s.log| && TriedAgain(t.s.log[t.s.pos], p)
    requires RetriedBy(c, policy, input, t.s.log[t.s.pos], p)
    requires
      Pass(k, replay, p, AttemptOf(t.s.log[t.s.pos].attempt), t.s.pos + 1, t.now, Some(t.stamps[t.s.pos].created)).None?
    requires Sane(u) && u == t.(s := u.s, held := t.held[t.s.pos + 1 := p]) && u.s.log == t.s.log
    ensures Accounts(c, policy, input, t, u)
  {
  }

  /** Holding right after writing says nothing about the log as it was before. */
  lemma HoldingNewAccounts(c: Config, policy: RunPolicy, input: string, t: Timed, u: Timed, v: Timed, p: RetryPolicy)
    requires Accounts(c, policy, input, t, u) && |t.s.log| < u.s.pos == |u.s.log|
    requires RetriedBy(c, policy, input, u.s.log[u.s.pos - 1], p)
    requires Sane(v) && v == u.(held := u.held[u.s.pos := p])
    ensures Accounts(c, policy, input, t, v)
  {
  }

  lemma {:induction false} TaskAccounts(c: Config, k: Course, policy: RunPolicy, jobInput: string, hist: seq<Return>,
      p: RetryPolicy, task: string, input: string, attempt: nat, t: Timed)
    requires Sane(t) && HeldBehind(t)
    requires
      var action := c.program(jobInput, hist);
      ArrivesAt(action, policy, p) && action.task == task && action.input == input
    ensures Accounts(c, policy, jobInput, t, TimedTask(c, k, p, task, input, attempt, t).state)
    decreases |t.s.log| - t.s.pos, AttemptsLeft(p, attempt), 1
  {
    hide Accounts, IsRetryable, ComputeBackoff, Advances, TimedTask, TimedRun;
    if t.s.pos == |t.s.log| {
      TimedTaskRuns(c, k, p, task, input, attempt, t);
      RunAccounts(c, k, policy, jobInput, hist, p, task, input, attempt, t);
    } else {
      TimedTaskReads(c, k, p, task, input, attempt, t);
      var u := t.(s := t.s.(pos := t.s.pos + 1));
      NothingAccounts(c, policy, jobInput, t, u);
      var verdict := Read(p, input, t.s.log[t.s.pos], t.s.pos);
      if verdict.Again? {
        var pass := Pass(k, c.replay, p, verdict.attempt - 1, u.s.pos, t.now, Some(t.stamps[t.s.pos].created));
        if pass.Some? {
          var v := u.(now := pass.value);
          NothingAccounts(c, policy, jobInput, t, v);
          TaskAccounts(c, k, policy, jobInput, hist, p, task, input, verdict.attempt, v);
          AccountsJoin(c, policy, jobInput, t, v, TimedTask(c, k, p, task, input, attempt, t).state);
        } else {
          assert AsksFor(c.program(jobInput, hist), policy, t.s.log[t.s.pos], p);
          HoldingAccounts(c, policy, jobInput, k, c.replay, t, Held(u, p), p);
        }
      }
    }
  }

  lemma {:induction false} RunAccounts(c: Config, k: Course, policy: RunPolicy, jobInput: string, hist: seq<Return>,
      p: RetryPolicy, task: string, input: string, attempt: nat, t: Timed)
    requires Sane(t) && HeldBehind(t) && t.s.pos == |t.s.log|
    requires
      var action := c.program(jobInput, hist);
      ArrivesAt(action, policy, p) && action.task == task && action.input == input
    ensures Accounts(c, policy, jobInput, t, TimedRun(c, k, p, task, input, attempt, t).state)
    decreases 0, AttemptsLeft(p, attempt), 0
  {
    hide Accounts, IsRetryable, ComputeBackoff, Advances, TimedTask, Pass;
    var end := TimedRun(c, k, p, task, input, attempt, t).state;
    if c.replay || task !in c.local || t.s.budget == 0 {
      NothingAccounts(c, policy, jobInput, t, end);
    } else {
      var ch := TaskOutcome(task, HashOf(input), attempt, k.outcome(t.s.pos));
      var u := Stamped(k, t.(s := t.s.(ran := t.s.ran + [t.s.pos])), p, ch);
      WritingAccounts(c, policy, jobInput, k, t, t.s.ran + [t.s.pos], p, ch);
      var verdict := Judge(p, attempt, k.outcome(t.s.pos));
      if verdict.Again? {
        var pass := Pass(k, false, p, attempt, u.s.pos, u.now, None);
        PassesWhenDue(k, false, p, attempt, u.s.pos, u.now, None);
        if pass.Some? {
          var v := u.(now := pass.value);
          NothingAccounts(c, policy, jobInput, u, v);
          TaskAccounts(c, k, policy, jobInput, hist, p, task, input, verdict.attempt, v);
          AccountsJoin(c, policy, jobInput, t, u, v);
          AccountsJoin(c, policy, jobInput, t, v, end);
        } else {
          assert AsksFor(c.program(jobInput, hist), policy, ch, p);
          HoldingNewAccounts(c, policy, jobInput, t, u, end, p);
        }
      }
    }
  }

  lemma {:induction false} WorkerAccounts(c: Config, k: Course, policy: RunPolicy, input: string, hist: seq<Return>,
      t: Timed)
    requires Sane(t) && HeldBehind(t)
    ensures Accounts(c, policy, input, t, TimedWorker(c, k, policy, input, hist, t).state)
    decreases |t.s.log| - t.s.pos + t.s.budget
  {
    hide Accounts, TimedTask;
    match c.program(input, hist) {
      case Finish(_) =>
        NothingAccounts(c, policy, input, t, t);
      case DoTask(over, task, taskInput) =>
        var p := Effective(over, policy);
        var u := TimedTask(c, k, p, task, taskInput, 1, t);
        TaskAccounts(c, k, policy, input, hist, p, task, taskInput, 1, t);
        if u.reply.Returned? {
          WorkerAccounts(c, k, policy, input, hist + [u.reply.ret], u.state);
          AccountsJoin(c, policy, input, t, u.state, TimedWorker(c, k, policy, input, hist, t).state);
        }
    }
  }

  lemma {:induction false} JobAccounts(c: Config, k: Course, policy: RunPolicy, input: string, attempt: nat, t: Timed)
    requires Sane(t) && HeldBehind(t)
    ensures Accounts(c, policy, input, t, TimedJob(c, k, policy, input, attempt, t).state)
    decreases |t.s.log| - t.s.pos, AttemptsLeft(policy.retry, attempt), 2
  {
    hide Accounts, TimedWorker, TimedCached, TimedSettle;
    if t.s.pos < |t.s.log| && t.s.log[t.s.pos].JobOutcome? {
      CachedAccounts(c, k, policy, input, t);
    } else {
      var w := TimedWorker(c, k, policy, input, [], t);
      WorkerAccounts(c, k, policy, input, [], t);
      if w.TimedFinished? {
        SettleAccounts(c, k, policy, input, attempt, w.result, w.state);
        AccountsJoin(c, policy, input, t, w.state, TimedJob(c, k, policy, input, attempt, t).state);
      }
    }
  }

  lemma {:induction false} SettleAccounts(c: Config, k: Course, policy: RunPolicy, input: string, attempt: nat,
      result: JobResult, t: Timed)
    requires Sane(t) && HeldBehind(t)
    ensures Accounts(c, policy, input, t, TimedSettle(c, k, policy, input, attempt, result, t).state)
    decreases |t.s.log| - t.s.pos, AttemptsLeft(policy.retry, attempt), 1
  {
    hide Accounts, TimedJob, TimedCached, Pass, Advances, IsRetryable;
    var end := TimedSettle(c, k, policy, input, attempt, result, t).state;
    if result.Nothing? || (t.s.pos == |t.s.log| && (c.replay || t.s.budget == 0)) {
      NothingAccounts(c, policy, input, t, end);
    } else if t.s.pos < |t.s.log| {
      CachedAccounts(c, k, policy, input, t);
    } else {
      var ch := JobOutcome(HashOf(input), attempt, Recorded(result));
      var u := Stamped(k, t, policy.retry, ch);
      assert t.(s := t.s.(ran := t.s.ran)) == t;
      WritingAccounts(c, policy, input, k, t, t.s.ran, policy.retry, ch);
      var verdict := JudgeJob(policy.retry, attempt, Recorded(result));
      if verdict.RetryAs? {
        var pass := Pass(k, false, policy.retry, attempt, u.s.pos, u.now, None);
        PassesWhenDue(k, false, policy.retry, attempt, u.s.pos, u.now, None);
        if pass.Some? {
          var v := u.(now := pass.value);
          NothingAccounts(c, policy, input, u, v);
          JobAccounts(c, k, policy, input, verdict.attempt, v);
          AccountsJoin(c, policy, input, t, u, v);
          AccountsJoin(c, policy, input, t, v, end);
        } else {
          HoldingNewAccounts(c, policy, input, t, u, end, policy.retry);
        }
      }
    }
  }

  lemma {:induction false} CachedAccounts(c: Config, k: Course, policy: RunPolicy, input: string, t: Timed)
    requires Sane(t) && HeldBehind(t) && t.s.pos < |t.s.log|
    ensures Accounts(c, policy, input, t, TimedCached(c, k, policy, input, t).state)
    decreases |t.s.log| - t.s.pos, 0, 0
  {
    hide Accounts, TimedJob, ComputeBackoff, Advances, IsRetryable;
    var end := TimedCached(c, k, policy, input, t).state;
    var verdict := ReadJob(policy.retry, input, t.s.log[t.s.pos]);
    if verdict.RetryAs? {
      var u := t.(s := t.s.(pos := t.s.pos + 1));
      var pass := Pass(k, c.replay, policy.retry, verdict.attempt - 1, u.s.pos, t.now, Some(t.stamps[t.s.pos].created));
      PassesWhenDue(k, c.replay, policy.retry, verdict.attempt - 1, u.s.pos, t.now, Some(t.stamps[t.s.pos].created));
      if pass.Some? {
        var v := u.(now := pass.value);
        NothingAccounts(c, policy, input, t, v);
        JobAccounts(c, k, policy, input, verdict.attempt, v);
        AccountsJoin(c, policy, input, t, v, end);
      } else {
        HoldingAccounts(c, policy, input, k, c.replay, t, end, policy.retry);
      }
    } else {
      NothingAccounts(c, policy, input, t, end);
    }
  }

  // Stories on the time line.

  predicate InOrder(st: Story) {
    |st.log| == |st.stamps| && forall i :: 0 <= i < |st.stamps| ==> st.stamps[i].created <= st.now
  }

  function Begin(st: Story, pos: nat, budget: nat): Timed {
    Timed(State(st.log, pos, budget, []), st.stamps, st.now, map[])
  }

  /** `DoJob` with a clock. */
  function TimedDoJob(c: Config, k: Course, budget: nat, st: Story): (r: TimedVisit)
    requires InOrder(st)
    ensures Sane(r.state) && st.log <= r.state.s.log && st.stamps <= r.state.stamps && st.now <= r.state.now
  {
    if st.log == [] then TimedVisit(NoStart, Begin(st, 0, budget))
    else if !st.log[0].JobStart? then TimedVisit(Broken(0), Begin(st, 0, budget))
    else TimedJob(c, k, JobPolicy(c, st.log[0]), st.log[0].input, 1, Begin(st, 1, budget))
  }

  /** What a replay function has to be told to make the visit the clock makes. */
  function Told(c: Config, k: Course, budget: nat, st: Story): Env
    requires InOrder(st)
  {
    var job := if st.log != [] && st.log[0].JobStart? then JobPolicy(c, st.log[0]).retry else UNSET.retry;
    Oracle(k, TimedDoJob(c, k, budget, st).state, job, |st.log|)
  }

  /** A visit with a clock is one of the visits all other results are about. */
  lemma TimedVisitIsAVisit(c: Config, k: Course, budget: nat, st: Story)
    requires InOrder(st)
    ensures DoJob(c, Told(c, k, budget, st), budget, st.log)
         == Visit(TimedDoJob(c, k, budget, st).stop, TimedDoJob(c, k, budget, st).state.s)
  {
    if st.log != [] && st.log[0].JobStart? {
      JobErases(c, k, TimedDoJob(c, k, budget, st).state, |st.log|, JobPolicy(c, st.log[0]), st.log[0].input, 1,
                Begin(st, 1, budget));
    }
  }

  datatype TimedPlan = TimedPlan(course: Course, budget: nat, gap: nat)

  /** Any number of visits, one after another, each dying wherever it likes. */
  function StoryAfter(c: Config, plans: seq<TimedPlan>, st: Story): (r: Story)
    requires InOrder(st)
    ensures InOrder(r) && st.log <= r.log
    decreases |plans|
  {
    if plans == [] then st
    else
      var plan := plans[0];
      var v := TimedDoJob(c, plan.course, plan.budget, st.(now := st.now + plan.gap)).state;
      StoryAfter(c, plans[1..], StoryOf(v))
  }

  /** A retry in chapter n keeps its distance from the failure before it. */
  ghost predicate Spaced(c: Config, start: Chapter, st: Story, n: nat)
    requires InOrder(st) && 0 < n < |st.log| && start.JobStart?
  {
    var failed, retried := st.stamps[n - 1].created, st.stamps[n].created;
    if RetriesJob(st.log, n) then
      failed + ComputeBackoff(JobPolicy(c, start).retry, AttemptOf(st.log[n - 1].attempt)) <= retried
    else
      RetriesTask(st.log, n) ==> failed + ComputeBackoff(st.stamps[n].policy, st.log[n].attempt - 1) <= retried
  }

  /** The log tells the history h, and every chapter is stamped with the policy of the call, or of
      the job, that h says wrote it. */
  ghost predicate StampedBy(c: Config, start: Chapter, st: Story, h: seq<AttemptRecord>)
    requires InOrder(st) && start.JobStart?
  {
    && Tells(c, start, st.log, h)
    && forall n: nat :: 0 < n < |st.log| ==> st.stamps[n].policy == Policies(h, JobPolicy(c, start).retry)[n - 1]
  }

  ghost predicate Kept(c: Config, start: Chapter, st: Story)
    requires InOrder(st) && start.JobStart?
  {
    && (exists h: seq<AttemptRecord> :: StampedBy(c, start, st, h))
    && (forall n: nat :: 0 < n < |st.log| ==> Spaced(c, start, st, n))
  }

  lemma {:induction false} ReachableTells(c: Config, start: Chapter, log: seq<Chapter>)
    requires !c.replay && start.JobStart? && Reachable(c, start, log)
    ensures exists h: seq<AttemptRecord> :: Tells(c, start, log, h)
  {
    hide DoJob;
    var once: Plan :| DoJob(c, once.env, once.budget, [start]).state.log == log;
    assert [once][..0] == [];
    assert LogAfter(c, [], [start]) == [start];
    LogGrammar(c, [once], start);
    var policy := JobPolicy(c, start);
    var h: seq<AttemptRecord> :|
      && LastVisit(c, [once], [start]).state.log == [start] + Flat(h) && h != []
      && GoodHistory(h, policy.retry, HashOf(start.input), 1) && ByProgram(c, policy, start.input, h, false);
    assert Tells(c, start, log, h);
  }

  /** The policies a log tells are those its beginning tells, and more. */
  lemma {:induction false} TellsAgree(c: Config, start: Chapter, log: seq<Chapter>, h: seq<AttemptRecord>,
      log': seq<Chapter>, h': seq<AttemptRecord>)
    requires start.JobStart? && Tells(c, start, log, h) && Tells(c, start, log', h') && log <= log'
    ensures Policies(h, JobPolicy(c, start).retry) <= Policies(h', JobPolicy(c, start).retry)
  {
    assert log[1..] == Flat(h) && log'[1..] == Flat(h') && log[1..] <= log'[1..];
    PoliciesAgree(c, JobPolicy(c, start), start.input, h, h', 1);
  }

  function TrackOf(c: Config, start: Chapter, log: seq<Chapter>, h: seq<AttemptRecord>, from: nat): Track
    requires start.JobStart?
  {
    var job := JobPolicy(c, start).retry;
    Track(log, [job] + Policies(h, job), job, from)
  }

  /** A story that has kept its distances so far sets a visit on the track of the longer history. */
  lemma {:induction false} KeptIsOnTrack(c: Config, start: Chapter, st: Story, log: seq<Chapter>, h: seq<AttemptRecord>,
      budget: nat)
    requires start.JobStart? && InOrder(st) && Kept(c, start, st) && st.log <= log && Tells(c, start, log, h)
    requires st.log != []
    ensures
      var track := TrackOf(c, start, log, h, |st.log|);
      && OnTrack(track, Begin(st, 1, budget))
      && HistoryAhead(c, JobPolicy(c, start), start.input, 1, track, 1, h)
  {
    hide ComputeBackoff, JobPolicy, GoodHistory, ByProgram;
    var job := JobPolicy(c, start).retry;
    var track := TrackOf(c, start, log, h, |st.log|);
    var g: seq<AttemptRecord> :| StampedBy(c, start, st, g);
    TellsAgree(c, start, st.log, g, log, h);
    assert track.ps[1..] == Policies(h, job) && log[1..] == Flat(h);
    forall n: nat | 0 < n < |st.log| ensures InTime(track, st.stamps, n) {
      assert Spaced(c, start, st, n);
      assert track.ps[n] == Policies(h, job)[n - 1] == Policies(g, job)[n - 1] == st.stamps[n].policy;
      assert RetriesJob(log, n) == RetriesJob(st.log, n) && RetriesTask(log, n) == RetriesTask(st.log, n);
    }
  }

  /** What a visit writes behind such a story is stamped as the history says. */
  lemma {:induction false} VisitIsStamped(c: Config, k: Course, budget: nat, start: Chapter, st: Story,
      h: seq<AttemptRecord>)
    requires !c.replay && start.JobStart? && InOrder(st) && st.log != [] && st.log[0] == start && Kept(c, start, st)
    requires Tells(c, start, TimedDoJob(c, k, budget, st).state.s.log, h)
    ensures StampedBy(c, start, StoryOf(TimedDoJob(c, k, budget, st).state), h)
  {
    hide ComputeBackoff, JobPolicy, GoodHistory, ByProgram, OnTrack, HistoryAhead;
    var f := TimedDoJob(c, k, budget, st).state;
    var policy := JobPolicy(c, start);
    var track := TrackOf(c, start, f.s.log, h, |st.log|);
    KeptIsOnTrack(c, start, st, f.s.log, h, budget);
    JobFollows(c, k, policy, start.input, 1, Begin(st, 1, budget), track, h);
    var g: seq<AttemptRecord> :| StampedBy(c, start, st, g);
    TellsAgree(c, start, st.log, g, f.s.log, h);
    forall n: nat | 0 < n < |f.s.log| ensures f.stamps[n].policy == Policies(h, policy.retry)[n - 1] {
      if n < |st.log| {
        assert f.stamps[n] == st.stamps[n];
      } else {
        assert f.stamps[n].policy == track.ps[n];
      }
    }
  }

  lemma NotEarlyIsSpaced(c: Config, start: Chapter, f: Timed, n: nat)
    requires Sane(f) && start.JobStart? && 0 < n < |f.s.log| && !Early(f, JobPolicy(c, start).retry, n)
    ensures Spaced(c, start, StoryOf(f), n)
  {
    hide ComputeBackoff, JobPolicy;
  }

  /** The clock of a visit and its oracle agree on what was written too early. */
  lemma ToldWhenEarly(c: Config, k: Course, budget: nat, st: Story, n: nat)
    requires InOrder(st) && st.log != [] && st.log[0].JobStart? && n >= |st.log|
    requires Early(TimedDoJob(c, k, budget, st).state, JobPolicy(c, st.log[0]).retry, n)
    ensures Told(c, k, budget, st).waiting(n)
  {
  }

  lemma EarlyAnswersARetry(f: Timed, job: RetryPolicy, n: nat)
    requires Early(f, job, n)
    ensures RetriesTask(f.s.log, n) || RetriesJob(f.s.log, n)
  {
  }

  lemma VisitIsSpaced(c: Config, k: Course, budget: nat, start: Chapter, st: Story, n: nat)
    requires !c.replay && start.JobStart? && InOrder(st) && st.log != [] && st.log[0] == start
    requires Reachable(c, start, st.log) && |st.log| <= n < |TimedDoJob(c, k, budget, st).state.s.log|
    ensures Spaced(c, start, StoryOf(TimedDoJob(c, k, budget, st).state), n)
  {
    hide ComputeBackoff, JobPolicy, Told, DoJob, Early;
    var f := TimedDoJob(c, k, budget, st).state;
    TimedVisitIsAVisit(c, k, budget, st);
    NoRetryBeforeItsBackoff(c, Told(c, k, budget, st), budget, start, st.log);
    if Early(f, JobPolicy(c, start).retry, n) {
      ToldWhenEarly(c, k, budget, st, n);
      EarlyAnswersARetry(f, JobPolicy(c, start).retry, n);
    }
    NotEarlyIsSpaced(c, start, f, n);
  }

  /** One more visit keeps them all. */
  lemma VisitKeepsDistances(c: Config, k: Course, budget: nat, start: Chapter, st: Story)
    requires !c.replay && start.JobStart? && InOrder(st) && st.log != [] && st.log[0] == start
    requires Reachable(c, start, st.log) && Kept(c, start, st)
    ensures
      var f := TimedDoJob(c, k, budget, st).state;
      Kept(c, start, StoryOf(f)) && Reachable(c, start, f.s.log)
  {
    hide ComputeBackoff, JobPolicy, Told, DoJob, Tells, StampedBy, TimedDoJob;
    var f := TimedDoJob(c, k, budget, st).state;
    var after := StoryOf(f);
    TimedVisitIsAVisit(c, k, budget, st);
    ReachableGrows(c, start, Told(c, k, budget, st), budget, st.log);
    ReachableTells(c, start, f.s.log);
    var h: seq<AttemptRecord> :| Tells(c, start, f.s.log, h);
    VisitIsStamped(c, k, budget, start, st, h);
    forall n: nat | 0 < n < |f.s.log| ensures Spaced(c, start, after, n) {
      if n < |st.log| {
        assert after.log[n] == st.log[n] && after.stamps[n] == st.stamps[n];
        assert after.log[n - 1] == st.log[n - 1] && after.stamps[n - 1] == st.stamps[n - 1];
        assert Spaced(c, start, st, n);
      } else {
        VisitIsSpaced(c, k, budget, start, st, n);
      }
    }
  }

  lemma WaitingKeepsDistances(c: Config, start: Chapter, st: Story, gap: nat)
    requires start.JobStart? && InOrder(st) && Kept(c, start, st)
    ensures Kept(c, start, st.(now := st.now + gap))
  {
    hide ComputeBackoff, JobPolicy, Tells;
    var waited := st.(now := st.now + gap);
    var h: seq<AttemptRecord> :| StampedBy(c, start, st, h);
    assert StampedBy(c, start, waited, h);
    forall n: nat | 0 < n < |st.log| ensures Spaced(c, start, waited, n) {
      assert Spaced(c, start, st, n);
    }
  }

  lemma {:induction false} VisitsKeepDistances(c: Config, plans: seq<TimedPlan>, start: Chapter, st: Story)
    requires !c.replay && start.JobStart? && InOrder(st) && st.log != [] && st.log[0] == start
    requires Reachable(c, start, st.log) && Kept(c, start, st)
    ensures Kept(c, start, StoryAfter(c, plans, st)) && Reachable(c, start, StoryAfter(c, plans, st).log)
    decreases |plans|
  {
    hide Kept, Reachable, TimedDoJob;
    if plans == [] {
    } else {
      var plan := plans[0];
      var waited := st.(now := st.now + plan.gap);
      WaitingKeepsDistances(c, start, st, plan.gap);
      VisitKeepsDistances(c, plan.course, plan.budget, start, waited);
      var v := TimedDoJob(c, plan.course, plan.budget, waited).state;
      VisitsKeepDistances(c, plans[1..], start, StoryOf(v));
    }
  }

  /** However many visits a job takes and wherever they die: a task is tried again, and a job
      attempt begins again, no sooner than its back-off after the failure was recorded, by the
      policy of the very call the program made there. */
  lemma BackoffsAreKept(c: Config, plans: seq<TimedPlan>, start: Chapter, stamp: Stamp, now: int)
    requires !c.replay && start.JobStart? && stamp.created <= now
    ensures
      var st := StoryAfter(c, plans, Story([start], [stamp], now));
      Kept(c, start, st) && Reachable(c, start, st.log)
  {
    var first := Story([start], [stamp], now);
    NoBudgetNoChapter(c, QUIET, [start]);
    assert DoJob(c, Plan(QUIET, 0).env, Plan(QUIET, 0).budget, [start]).state.log == [start];
    ReachableTells(c, start, [start]);
    var h: seq<AttemptRecord> :| Tells(c, start, [start], h);
    assert StampedBy(c, start, first, h);
    VisitsKeepDistances(c, plans, start, first);
  }

  /** What a restart clones of a story. */
  function Rewound(st: Story, lastStepToKeep: nat): Story
    requires InOrder(st) && lastStepToKeep < |st.log|
  {
    Story(st.log[..lastStepToKeep + 1], st.stamps[..lastStepToKeep + 1], st.now)
  }

  lemma RewindingKeepsDistances(c: Config, start: Chapter, st: Story, k: nat)
    requires !c.replay && start.JobStart? && InOrder(st) && k < |st.log| && st.log[0] == start
    requires Reachable(c, start, st.log) && Kept(c, start, st)
    ensures Kept(c, start, Rewound(st, k)) && Reachable(c, start, Rewound(st, k).log)
  {
    hide ComputeBackoff, JobPolicy, Tells, Reachable;
    var cut := Rewound(st, k);
    PrefixIsReachable(c, start, st.log, cut.log);
    ReachableTells(c, start, cut.log);
    var h: seq<AttemptRecord> :| StampedBy(c, start, st, h);
    var g: seq<AttemptRecord> :| Tells(c, start, cut.log, g);
    TellsAgree(c, start, cut.log, g, st.log, h);
    CutIsStamped(c, start, st, h, cut, g);
    forall n: nat | 0 < n < |cut.log| ensures Spaced(c, start, cut, n) {
      assert Spaced(c, start, st, n);
    }
  }

  lemma {:induction false} CutIsStamped(c: Config, start: Chapter, st: Story, h: seq<AttemptRecord>, cut: Story,
      g: seq<AttemptRecord>)
    requires start.JobStart? && InOrder(st) && InOrder(cut) && StampedBy(c, start, st, h)
    requires Tells(c, start, cut.log, g) && cut.stamps <= st.stamps
    requires Policies(g, JobPolicy(c, start).retry) <= Policies(h, JobPolicy(c, start).retry)
    ensures StampedBy(c, start, cut, g)
  {
    hide JobPolicy, GoodHistory, ByProgram;
  }

  /** Nor does a restart, with its cloned chapters, bring a retry forward. */
  lemma RestartsKeepDistances(c: Config, start: Chapter, st: Story, k: nat, plans: seq<TimedPlan>)
    requires !c.replay && start.JobStart? && InOrder(st) && k < |st.log| && st.log[0] == start
    requires Reachable(c, start, st.log) && Kept(c, start, st)
    ensures
      var again := StoryAfter(c, plans, Rewound(st, k));
      Kept(c, start, again) && Reachable(c, start, again.log)
  {
    RewindingKeepsDistances(c, start, st, k);
    VisitsKeepDistances(c, plans, start, Rewound(st, k));
  }

  // Nothing waits longer than it must.

  /** No back-off recorded in this log is still running, whichever policy of the job computes it. */
  ghost predicate AllOver(c: Config, st: Story)
    requires InOrder(st) && st.log != [] && st.log[0].JobStart?
  {
    forall n: nat, p: RetryPolicy ::
      0 < n < |st.log| && RetriedBy(c, JobPolicy(c, st.log[0]), st.log[0].input, st.log[n - 1], p) ==>
        !Running(st, n, p)
  }

  /** A visit holds at a recorded failure only while its back-off really is running. */
  lemma HeldIsRunning(c: Config, k: Course, budget: nat, st: Story, n: nat)
    requires InOrder(st) && st.log != [] && st.log[0].JobStart?
    requires n <= |st.log| && n in TimedDoJob(c, k, budget, st).state.held
    ensures
      var p := TimedDoJob(c, k, budget, st).state.held[n];
      && 0 < n && RetriedBy(c, JobPolicy(c, st.log[0]), st.log[0].input, st.log[n - 1], p)
      && Running(st, n, p)
  {
    hide ComputeBackoff, RetriedBy, JobPolicy;
    JobAccounts(c, k, JobPolicy(c, st.log[0]), st.log[0].input, 1, Begin(st, 1, budget));
  }

  /** So after the last of them the clock has nothing to say. */
  lemma QuietOnceOver(c: Config, k: Course, budget: nat, st: Story)
    requires InOrder(st) && st.log != [] && st.log[0].JobStart? && AllOver(c, st)
    ensures Quiet(Told(c, k, budget, st), |st.log|)
  {
    hide ComputeBackoff, RetriedBy, JobPolicy, Running;
    var f := TimedDoJob(c, k, budget, st).state;
    forall n: nat | n < |st.log| ensures n !in f.held {
      if n in f.held { HeldIsRunning(c, k, budget, st, n); }
    }
  }

  /** A finished log reads back as soon as its back-offs are over, by the clock. */
  lemma FinishedLogReadsBackInTime(c: Config, d: Config, plans: seq<Plan>, k: Course, budget: nat, log: seq<Chapter>,
      o: Outcome, st: Story)
    requires SameJob(c, d, log) && plans != [] && log != [] && log[0].JobStart?
    requires HasResult(LastVisit(c, plans, log).stop, o)
    requires InOrder(st) && st.log == LastVisit(c, plans, log).state.log && st.log[0].JobStart? && AllOver(d, st)
    ensures
      var again := TimedDoJob(d, k, budget, st);
      && again.state.s.log == st.log && again.state.s.ran == []
      && (d.replay ==> again.stop == Ended(o))
      && (!d.replay ==> again.stop == if o.Ok? then Completed(o) else Ended(o))
  {
    QuietOnceOver(d, k, budget, st);
    TimedVisitIsAVisit(d, k, budget, st);
    FinishedLogReadsBack(c, d, plans, Told(d, k, budget, st), budget, log, o);
  }

  /** So does the miss of a replay over a log cut short. */
  lemma CutLogMissesInTime(c: Config, d: Config, plans: seq<Plan>, k: Course, patience: nat, log: seq<Chapter>,
      st: Story)
    requires SameJob(c, d, log) && d.replay && PassesMissesOn(c.program)
    requires plans != [] && log != [] && log[0].JobStart? && patience > 0
    requires InOrder(st) && st.log != [] && st.log[0] == log[0] && AllOver(d, st)
    requires log <= st.log <= LastVisit(c, plans, log).state.log && |st.log| < |LastVisit(c, plans, log).state.log|
    ensures
      var cut := TimedDoJob(d, k, patience, st);
      && JobMissed(st.log, LastVisit(c, plans, log).state.log[|st.log|], cut.stop)
      && cut.state.s.log == st.log && cut.state.s.ran == []
  {
    QuietOnceOver(d, k, patience, st);
    TimedVisitIsAVisit(d, k, patience, st);
    CutLogMisses(c, d, plans, Told(d, k, patience, st), patience, log, st.log);
  }

  // A log whose distances were kept never makes its reader wait.

  lemma {:induction false} SameCalls(c: Config, d: Config, policy: RunPolicy, input: string, hist: seq<Return>,
      calls: seq<CallRecord>, whole: bool)
    requires d.program == c.program && Made(c, policy, input, hist, calls, whole)
    ensures Made(d, policy, input, hist, calls, whole)
    decreases |calls|
  {
    if calls == [] {
    } else {
      SameCalls(c, d, policy, input, hist + [Answer(calls[0])], calls[1..], whole);
    }
  }

  lemma {:induction false} SameEnd(c: Config, d: Config, input: string, hist: seq<Return>, calls: seq<CallRecord>,
      o: Outcome)
    requires d.program == c.program && Ends(c, input, hist, calls, o)
    ensures Ends(d, input, hist, calls, o)
    decreases |calls|
  {
    if calls == [] {
    } else {
      SameEnd(c, d, input, hist + [Answer(calls[0])], calls[1..], o);
    }
  }

  lemma {:induction false} SameHistory(c: Config, d: Config, policy: RunPolicy, input: string, h: seq<AttemptRecord>,
      whole: bool)
    requires d.program == c.program && ByProgram(c, policy, input, h, whole)
    ensures ByProgram(d, policy, input, h, whole)
  {
    hide Made, Ends;
    forall i | 0 <= i < |h|
      ensures Made(d, policy, input, [], h[i].calls, whole || h[i].outcome.Some?)
      ensures h[i].outcome.Some? ==>
        h[i].outcome.value.JobOutcome? && Ends(d, input, [], h[i].calls, h[i].outcome.value.outcome)
    {
      SameCalls(c, d, policy, input, [], h[i].calls, whole || h[i].outcome.Some?);
      if h[i].outcome.Some? { SameEnd(c, d, input, [], h[i].calls, h[i].outcome.value.outcome); }
    }
  }

  /** The worker itself, or a replay of its job from whatever policy. */
  ghost predicate Rereads(c: Config, d: Config, start: Chapter) {
    SameJob(c, d, [start]) && (d.replay || d == c)
  }

  lemma {:induction false} HoldsNothingOld(c: Config, d: Config, k: Course, budget: nat, start: Chapter, st: Story)
    requires start.JobStart? && InOrder(st) && st.log != [] && st.log[0] == start && Rereads(c, d, start)
    requires Reachable(c, start, st.log) && Kept(c, start, st)
    ensures forall n :: n in TimedDoJob(d, k, budget, st).state.held ==> n >= |st.log|
  {
    hide ComputeBackoff, JobPolicy, GoodHistory, ByProgram, OnTrack, DoJob, Told;
    var f := TimedDoJob(d, k, budget, st).state;
    var policy := JobPolicy(c, start);
    if d == c {
      TimedVisitIsAVisit(c, k, budget, st);
      ReachableGrows(c, start, Told(c, k, budget, st), budget, st.log);
    }
    ReachableTells(c, start, f.s.log);
    var h: seq<AttemptRecord> :| Tells(c, start, f.s.log, h);
    var track := TrackOf(c, start, f.s.log, h, |st.log|);
    KeptIsOnTrack(c, start, st, f.s.log, h, budget);
    SameHistory(c, d, policy, start.input, h, false);
    JobFollows(d, k, policy, start.input, 1, Begin(st, 1, budget), track, h);
  }

  lemma {:induction false} QuietOnceKept(c: Config, d: Config, k: Course, budget: nat, start: Chapter, st: Story)
    requires start.JobStart? && InOrder(st) && st.log != [] && st.log[0] == start && Rereads(c, d, start)
    requires Reachable(c, start, st.log) && Kept(c, start, st)
    ensures Quiet(Told(d, k, budget, st), |st.log|)
  {
    HoldsNothingOld(c, d, k, budget, start, st);
  }

  /** A visit to a story that has kept its distances ended with a result: then its log reads back
      at any later time, by the clock and without waiting, live or in replay. */
  lemma ResultReadsBackAtOnce(c: Config, d: Config, start: Chapter, st: Story, k: Course, budget: nat, gap: nat,
      k': Course, budget': nat, o: Outcome)
    requires !c.replay && start.JobStart? && InOrder(st) && st.log != [] && st.log[0] == start && Rereads(c, d, start)
    requires Reachable(c, start, st.log) && Kept(c, start, st)
    requires HasResult(TimedDoJob(c, k, budget, st).stop, o)
    ensures
      var done := StoryOf(TimedDoJob(c, k, budget, st).state);
      var again := TimedDoJob(d, k', budget', done.(now := done.now + gap));
      && again.state.s.log == done.log && again.state.s.ran == []
      && (d.replay ==> again.stop == Ended(o))
      && (!d.replay ==> again.stop == if o.Ok? then Completed(o) else Ended(o))
  {
    hide Kept, Reachable, TimedDoJob, DoJob, Told, HasResult, Quiet;
    var done := StoryOf(TimedDoJob(c, k, budget, st).state);
    VisitKeepsDistances(c, k, budget, start, st);
    WaitingKeepsDistances(c, start, done, gap);
    var later := done.(now := done.now + gap);
    QuietOnceKept(c, d, k', budget', start, later);
    TimedVisitIsAVisit(c, k, budget, st);
    TimedVisitIsAVisit(d, k', budget', later);
    LastOfReachable(c, start, st.log, Told(c, k, budget, st), budget);
    var plans: seq<Plan> :|
      plans != [] && LastVisit(c, plans, [start]) == DoJob(c, Told(c, k, budget, st), budget, st.log);
    FinishedLogReadsBack(c, d, plans, Told(d, k', budget', later), budget', [start], o);
  }

  /** So does the log of any job that a visit has finished, whatever its earlier visits died of. */
  lemma FinishedLogReadsBackAtOnce(c: Config, d: Config, before: seq<TimedPlan>, last: TimedPlan, start: Chapter,
      stamp: Stamp, now: int, k: Course, budget: nat, gap: nat, o: Outcome)
    requires !c.replay && start.JobStart? && stamp.created <= now && Rereads(c, d, start)
    requires
      var st := StoryAfter(c, before, Story([start], [stamp], now));
      HasResult(TimedDoJob(c, last.course, last.budget, st.(now := st.now + last.gap)).stop, o)
    ensures
      var done := StoryAfter(c, before + [last], Story([start], [stamp], now));
      var again := TimedDoJob(d, k, budget, done.(now := done.now + gap));
      && again.state.s.log == done.log && again.state.s.ran == []
      && (d.replay ==> again.stop == Ended(o))
      && (!d.replay ==> again.stop == if o.Ok? then Completed(o) else Ended(o))
  {
    hide Kept, Reachable, TimedDoJob, HasResult;
    var first := Story([start], [stamp], now);
    var st := StoryAfter(c, before, first);
    StoryGoesOn(c, before, last, first);
    BackoffsAreKept(c, before, start, stamp, now);
    WaitingKeepsDistances(c, start, st, last.gap);
    ResultReadsBackAtOnce(c, d, start, st.(now := st.now + last.gap), last.course, last.budget, gap, k, budget, o);
  }

  lemma {:induction false} StoryGoesOn(c: Config, before: seq<TimedPlan>, last: TimedPlan, first: Story)
    requires InOrder(first)
    ensures
      var st := StoryAfter(c, before, first);
      StoryAfter(c, before + [last], first)
        == StoryOf(TimedDoJob(c, last.course, last.budget, st.(now := st.now + last.gap)).state)
    decreases |before|
  {
    hide TimedDoJob;
    if before == [] {
      assert before + [last] == [last] && [last][1..] == [];
    } else {
      var plan := before[0];
      var v := TimedDoJob(c, plan.course, plan.budget, first.(now := first.now + plan.gap)).state;
      assert (before + [last])[1..] == before[1..] + [last] && (before + [last])[0] == plan;
      StoryGoesOn(c, before[1..], last, StoryOf(v));
    }
  }

  /** A visit on a reachable log is the last of some series of visits. */
  lemma LastOfReachable(c: Config, start: Chapter, log: seq<Chapter>, e: Env, budget: nat)
    requires Reachable(c, start, log)
    ensures exists plans: seq<Plan> :: plans != [] && LastVisit(c, plans, [start]) == DoJob(c, e, budget, log)
  {
    hide DoJob;
    var once: Plan :| DoJob(c, once.env, once.budget, [start]).state.log == log;
    var plans := [once, Plan(e, budget)];
    assert plans[..1] == [once] && [once][..0] == [];
    assert LogAfter(c, [once], [start]) == LastVisit(c, [once], [start]).state.log;
    assert LogAfter(c, [], [start]) == [start];
    assert LastVisit(c, plans, [start]) == DoJob(c, e, budget, log);
  }

  /** A replay of what is left of such a story, cut anywhere, meets its miss at the cut. */
  lemma CutLogMissesAtOnce(c: Config, d: Config, start: Chapter, st: Story, m: nat, k: Course, patience: nat)
    requires !c.replay && start.JobStart? && InOrder(st) && st.log != [] && st.log[0] == start
    requires Reachable(c, start, st.log) && Kept(c, start, st) && m + 1 < |st.log|
    requires SameJob(c, d, [start]) && d.replay && PassesMissesOn(c.program) && patience > 0
    ensures
      var cut := TimedDoJob(d, k, patience, Rewound(st, m));
      && JobMissed(st.log[..m + 1], st.log[m + 1], cut.stop)
      && cut.state.s.log == st.log[..m + 1] && cut.state.s.ran == []
  {
    hide Kept, TimedDoJob, DoJob, Told, Quiet, PassesMissesOn, JobMissed;
    RewindingKeepsDistances(c, start, st, m);
    var left := Rewound(st, m);
    QuietOnceKept(c, d, k, patience, start, left);
    TimedVisitIsAVisit(d, k, patience, left);
    var once: Plan :| DoJob(c, once.env, once.budget, [start]).state.log == st.log;
    assert [once][..0] == [];
    assert LogAfter(c, [], [start]) == [start];
    assert LastVisit(c, [once], [start]).state.log == st.log;
    CutLogMisses(c, d, [once], Told(d, k, patience, left), patience, [start], left.log);
  }
}
