/**
 Crash simulation: a job visited any number of times, each visit dying wherever it likes,
 has the log and the result of one visit that was never interrupted.
 */
module Crash {
  import opened Retry
  import opened Chapters
  import opened Runner
  import opened Resume

  datatype Plan = Plan(env: Env, budget: nat)

  /** The last of a series of visits, each starting on the log the one before it left. */
  function LastVisit(c: Config, plans: seq<Plan>, log: seq<Chapter>): Visit
    requires plans != []
    decreases |plans|, 0
  {
    var plan := plans[|plans| - 1];
    DoJob(c, plan.env, plan.budget, LogAfter(c, plans[..|plans| - 1], log))
  }

  function LogAfter(c: Config, plans: seq<Plan>, log: seq<Chapter>): seq<Chapter>
    decreases |plans|, 1
  {
    if plans == [] then log else LastVisit(c, plans, log).state.log
  }

  /** Each visit starts on the log the one before it left, from the first on. */
  lemma {:induction false} VisitsFollowEachOther(c: Config, plan: Plan, later: seq<Plan>, log: seq<Chapter>)
    ensures LogAfter(c, [], log) == log
    ensures LogAfter(c, [plan] + later, log) == LogAfter(c, later, DoJob(c, plan.env, plan.budget, log).state.log)
    ensures later != [] ==>
      LastVisit(c, [plan] + later, log) == LastVisit(c, later, DoJob(c, plan.env, plan.budget, log).state.log)
    ensures LastVisit(c, [plan], log) == DoJob(c, plan.env, plan.budget, log)
    decreases |later|
  {
    hide DoJob;
    assert [plan][..0] == [];
    if later == [] {
      assert [plan] + later == [plan];
    } else {
      var all := [plan] + later;
      assert all[..|all| - 1] == [plan] + later[..|later| - 1];
      VisitsFollowEachOther(c, plan, later[..|later| - 1], log);
    }
  }

  /** A second visit may start on any log the first one passed through. */
  lemma VisitResumes(c: Config, first: Plan, e: Env, budget: nat, log: seq<Chapter>, M: seq<Chapter>)
    requires !c.replay && log != []
    requires log <= M <= DoJob(c, first.env, first.budget, log).state.log
    ensures JobInStep(M, DoJob(c, e, budget, M), DoJob(c, Splice(M, e), |M| - |log| + budget, log))
  {
    assert M[0] == log[0];
    if log[0].JobStart? {
      var a := State(M, 1, budget, []);
      var b := State(log, 1, |M| - |log| + budget, []);
      JobResumes(c, first.env, e, M, JobPolicy(c, log[0]), log[0].input, 1, State(log, 1, first.budget, []), a, b);
    }
  }

  /** The one visit `once` leaves the same log and ends with the same result.  A visit that
      merely parked has no result to compare. */
  ghost predicate CouldHaveBeen(c: Config, once: Plan, log: seq<Chapter>, last: Visit) {
    var single := DoJob(c, once.env, once.budget, log);
    single.state.log == last.state.log && (SameResult(last.stop, single.stop) || last.stop.Parked?)
  }

  /** Whatever the crashes, one uninterrupted visit could have left the same log and ended with
      the same result. */
  lemma {:induction false} CrashSimulation(c: Config, plans: seq<Plan>, log: seq<Chapter>)
    requires !c.replay && log != [] && plans != []
    ensures exists once: Plan :: CouldHaveBeen(c, once, log, LastVisit(c, plans, log))
    decreases |plans|
  {
    var plan := plans[|plans| - 1];
    var before := plans[..|plans| - 1];
    var last := LastVisit(c, plans, log);
    if before == [] {
      assert LogAfter(c, before, log) == log;
      assert CouldHaveBeen(c, plan, log, last);
    } else {
      CrashSimulation(c, before, log);
      var prev: Plan :| CouldHaveBeen(c, prev, log, LastVisit(c, before, log));
      var M := LogAfter(c, before, log);
      VisitResumes(c, prev, plan.env, plan.budget, log, M);
      var once := Plan(Splice(M, plan.env), |M| - |log| + plan.budget);
      assert CouldHaveBeen(c, if ParkedInside(M, last.stop, last.state.log) then prev else once, log, last);
    }
  }

  // Which task workers a visit runs.

  /** The ordinals at or after `from` that hold task outcomes. */
  function TaskOrdinals(log: seq<Chapter>, from: nat): seq<nat>
    decreases |log| - from
  {
    if from >= |log| then []
    else (if log[from].TaskOutcome? then [from] else []) + TaskOrdinals(log, from + 1)
  }

  lemma {:induction false} TaskOrdinalsSplit(log: seq<Chapter>, longer: seq<Chapter>, from: nat)
    requires log <= longer && from <= |log|
    ensures TaskOrdinals(longer, from) == TaskOrdinals(log, from) + TaskOrdinals(longer, |log|)
    decreases |log| - from
  {
    if from >= |log| {
    } else {
      TaskOrdinalsSplit(log, longer, from + 1);
    }
  }

  /** Between s and t the workers that ran are those whose outcomes were recorded, in order, and
      at most one more whose outcome was not. */
  ghost predicate RanList(s: State, t: State, dying: bool) {
    || t.ran == s.ran + TaskOrdinals(t.log, |s.log|)
    || (dying && t.ran == s.ran + TaskOrdinals(t.log, |s.log|) + [|t.log|])
  }

  /** What was recorded between s and t is what the worker returned. */
  ghost predicate Truthful(e: Env, s: State, t: State) {
    forall n :: |s.log| <= n < |t.log| && t.log[n].TaskOutcome? ==> t.log[n].outcome == e.outcome(n)
  }

  ghost predicate RanOnce(e: Env, s: State, t: State, dying: bool) {
    s.log <= t.log && RanList(s, t, dying) && Truthful(e, s, t)
  }

  lemma ListsJoin(a: seq<nat>, b: seq<nat>, c: seq<nat>)
    ensures (a + b) + c == a + (b + c)
  {
  }

  lemma RanListJoins(s: State, t: State, u: State, dying: bool)
    requires s.log <= t.log <= u.log && RanList(s, t, false) && RanList(t, u, dying)
    ensures RanList(s, u, dying)
  {
    var before, after := TaskOrdinals(t.log, |s.log|), TaskOrdinals(u.log, |t.log|);
    var all := TaskOrdinals(u.log, |s.log|);
    assert all == before + after by { TaskOrdinalsSplit(t.log, u.log, |s.log|); }
    ListsJoin(s.ran, before, after);
    if u.ran != t.ran + after {
      assert u.ran == s.ran + all + [|u.log|];
    }
  }

  lemma RanOnceJoins(e: Env, s: State, t: State, u: State, dying: bool)
    requires RanOnce(e, s, t, false) && RanOnce(e, t, u, dying)
    ensures RanOnce(e, s, u, dying)
  {
    RanListJoins(s, t, u, dying);
    forall n | |s.log| <= n < |u.log| && u.log[n].TaskOutcome?
      ensures u.log[n].outcome == e.outcome(n)
    {
      if n < |t.log| {
        assert u.log[n] == t.log[n];
      }
    }
  }

  lemma WriteRunsOnce(e: Env, s: State, task: string, input: string, attempt: nat)
    requires s.pos == |s.log| && s.budget > 0
    ensures RanOnce(e, s, Write(s.(ran := s.ran + [s.pos]),
                                TaskOutcome(task, HashOf(input), attempt, e.outcome(s.pos))), false)
  {
    var u := Write(s.(ran := s.ran + [s.pos]), TaskOutcome(task, HashOf(input), attempt, e.outcome(s.pos)));
    assert TaskOrdinals(u.log, |s.log|) == [s.pos] + TaskOrdinals(u.log, |s.log| + 1);
  }

  lemma {:induction false} TaskRunsOnce(c: Config, e: Env, p: RetryPolicy, task: string, input: string, attempt: nat,
      s: State)
    requires s.pos <= |s.log|
    ensures
      var r := TaskLoop(c, e, p, task, input, attempt, s);
      RanOnce(e, s, r.state, r.reply == Halted(Cut))
    decreases |s.log| - s.pos, AttemptsLeft(p, attempt)
  {
    if s.pos < |s.log| {
      var verdict := Read(p, input, s.log[s.pos], s.pos);
      if verdict.Again? && !e.waiting(s.pos + 1) {
        TaskRunsOnce(c, e, p, task, input, verdict.attempt, s.(pos := s.pos + 1));
      }
    } else if !c.replay && task in c.local && s.budget > 0 {
      var u := Write(s.(ran := s.ran + [s.pos]), TaskOutcome(task, HashOf(input), attempt, e.outcome(s.pos)));
      WriteRunsOnce(e, s, task, input, attempt);
      var verdict := Judge(p, attempt, e.outcome(s.pos));
      if verdict.Again? && !e.waiting(u.pos) {
        TaskRunsOnce(c, e, p, task, input, verdict.attempt, u);
        var r := TaskLoop(c, e, p, task, input, attempt, s);
        RanOnceJoins(e, s, u, r.state, r.reply == Halted(Cut));
      }
    }
  }

  lemma {:induction false} WorkerRunsOnce(c: Config, e: Env, policy: RunPolicy, input: string, hist: seq<Return>,
      s: State)
    requires s.pos <= |s.log|
    ensures
      var r := WorkerLoop(c, e, policy, input, hist, s);
      RanOnce(e, s, r.state, r.Stopped? && r.stop == Cut)
    decreases |s.log| - s.pos + s.budget
  {
    match c.program(input, hist)
    case Finish(_) =>
    case DoTask(over, task, taskInput) =>
      var p := Effective(over, policy);
      TaskRunsOnce(c, e, p, task, taskInput, 1, s);
      var t := TaskLoop(c, e, p, task, taskInput, 1, s);
      if t.reply.Returned? {
        WorkerRunsOnce(c, e, policy, input, hist + [t.reply.ret], t.state);
        var r := WorkerLoop(c, e, policy, input, hist, s);
        RanOnceJoins(e, s, t.state, r.state, r.Stopped? && r.stop == Cut);
      }
  }

  lemma {:induction false} JobRunsOnce(c: Config, e: Env, policy: RunPolicy, input: string, attempt: nat, s: State)
    requires s.pos <= |s.log|
    ensures
      var r := JobLoop(c, e, policy, input, attempt, s);
      RanOnce(e, s, r.state, r.stop == Cut)
    decreases |s.log| - s.pos, AttemptsLeft(policy.retry, attempt), 2
  {
    if s.pos < |s.log| && s.log[s.pos].JobOutcome? {
      CachedRunsOnce(c, e, policy, input, s);
    } else {
      WorkerRunsOnce(c, e, policy, input, [], s);
      var w := WorkerLoop(c, e, policy, input, [], s);
      if w.Finished? {
        SettleRunsOnce(c, e, policy, input, attempt, w.result, w.state);
        var r := JobLoop(c, e, policy, input, attempt, s);
        RanOnceJoins(e, s, w.state, r.state, r.stop == Cut);
      }
    }
  }

  lemma {:induction false} SettleRunsOnce(c: Config, e: Env, policy: RunPolicy, input: string, attempt: nat,
      result: JobResult, s: State)
    requires s.pos <= |s.log|
    ensures
      var r := JobSettle(c, e, policy, input, attempt, result, s);
      RanOnce(e, s, r.state, r.stop == Cut)
    decreases |s.log| - s.pos, AttemptsLeft(policy.retry, attempt), 1
  {
    if !result.Nothing? {
      if s.pos < |s.log| {
        CachedRunsOnce(c, e, policy, input, s);
      } else if !c.replay && s.budget > 0 {
        var u := Write(s, JobOutcome(HashOf(input), attempt, Recorded(result)));
        assert TaskOrdinals(u.log, |s.log|) == [] + TaskOrdinals(u.log, |s.log| + 1);
        assert RanOnce(e, s, u, false);
        var verdict := JudgeJob(policy.retry, attempt, Recorded(result));
        if verdict.RetryAs? && !e.waiting(u.pos) {
          JobRunsOnce(c, e, policy, input, verdict.attempt, u);
          var r := JobSettle(c, e, policy, input, attempt, result, s);
          RanOnceJoins(e, s, u, r.state, r.stop == Cut);
        }
      }
    }
  }

  lemma {:induction false} CachedRunsOnce(c: Config, e: Env, policy: RunPolicy, input: string, s: State)
    requires s.pos < |s.log|
    ensures
      var r := JobCached(c, e, policy, input, s);
      RanOnce(e, s, r.state, r.stop == Cut)
    decreases |s.log| - s.pos, 0, 0
  {
    var verdict := ReadJob(policy.retry, input, s.log[s.pos]);
    if verdict.RetryAs? && !e.waiting(s.pos + 1) {
      JobRunsOnce(c, e, policy, input, verdict.attempt, s.(pos := s.pos + 1));
    }
  }

  /** Strictly ascending ordinals, none below `from`. */
  ghost predicate AscendsFrom(ran: seq<nat>, from: nat) {
    && (forall i :: 0 <= i < |ran| ==> from <= ran[i])
    && (forall i, j :: 0 <= i < j < |ran| ==> ran[i] < ran[j])
  }

  lemma {:induction false} TaskOrdinalsAscend(log: seq<Chapter>, from: nat)
    ensures AscendsFrom(TaskOrdinals(log, from), from)
    ensures forall n :: n in TaskOrdinals(log, from) ==> n < |log|
    decreases |log| - from
  {
    if from >= |log| {
    } else {
      TaskOrdinalsAscend(log, from + 1);
      var rest := TaskOrdinals(log, from + 1);
      assert TaskOrdinals(log, from) == if log[from].TaskOutcome? then [from] + rest else rest;
    }
  }

  lemma AscendingAppend(ran: seq<nat>, from: nat, last: nat)
    requires AscendsFrom(ran, from) && from <= last && forall n :: n in ran ==> n < last
    ensures AscendsFrom(ran + [last], from)
  {
    forall i, j | 0 <= i < j < |ran| + 1
      ensures (ran + [last])[i] < (ran + [last])[j]
    {
      assert ran[i] in ran;
    }
  }

  lemma RanAscends(e: Env, s: State, t: State, dying: bool)
    requires s.ran == [] && RanOnce(e, s, t, dying)
    ensures AscendsFrom(t.ran, |s.log|)
  {
    var o := TaskOrdinals(t.log, |s.log|);
    TaskOrdinalsAscend(t.log, |s.log|);
    assert [] + o == o;
    if t.ran != o {
      AscendingAppend(o, |s.log|, |t.log|);
    }
  }

  /** No task worker runs for an ordinal that already has a chapter, none runs twice, and what
      is recorded is what it returned. */
  lemma NoWorkerRunsForARecordedOrdinal(c: Config, e: Env, budget: nat, log: seq<Chapter>)
    ensures
      var r := DoJob(c, e, budget, log);
      RanOnce(e, State(log, 1, budget, []), r.state, r.stop == Cut) && AscendsFrom(r.state.ran, |log|)
  {
    var s := State(log, 1, budget, []);
    var r := DoJob(c, e, budget, log);
    if log != [] && log[0].JobStart? {
      JobRunsOnce(c, e, JobPolicy(c, log[0]), log[0].input, 1, s);
    }
    RanAscends(e, s, r.state, r.stop == Cut);
  }
}
