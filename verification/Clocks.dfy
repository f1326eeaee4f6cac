/**
 The same visits with a clock.  Every chapter has a creation time, a visit reads the clock as it
 goes, and a back-off is a length of time (pkg/workflow/worker_retry.go,
 pkg/workflow/worker_runner.go).  Times are integers in nanoseconds; coefficients are exact.
 */
module Clocks {
  import opened Retry
  import opened Chapters
  import opened Runner

  // Back-off lengths.

  function Power(base: real, n: nat): real {
    if n == 0 then 1.0 else base * Power(base, n - 1)
  }

  /** A conversion to an integer drops the fraction. */
  function Truncate(r: real): int {
    if r < 0.0 then -(-r).Floor else r.Floor
  }

  function Factor(coefficient: real, attempt: nat): real {
    if attempt > 1 then Power(coefficient, attempt - 1) else 1.0
  }

  function Scaled(p: RetryPolicy, attempt: nat): real {
    p.initialInterval as real * Factor(p.backoffCoefficient, attempt)
  }

  function ComputeBackoff(p: RetryPolicy, attempt: nat): (d: int)
    ensures d >= 0
    ensures p.maximumInterval > 0 ==> d <= p.maximumInterval
  {
    var d := Truncate(Scaled(p, attempt));
    var capped := if p.maximumInterval > 0 && d > p.maximumInterval then p.maximumInterval else d;
    if capped < 0 then 0 else capped
  }

  lemma {:induction false} PowerGrows(base: real, m: nat, n: nat)
    requires base >= 1.0 && m <= n
    ensures 1.0 <= Power(base, m) <= Power(base, n)
    decreases m, n - m
  {
    if m == n {
      if m > 0 {
        PowerGrows(base, m - 1, m - 1);
        assert base * Power(base, m - 1) >= 1.0 * Power(base, m - 1);
      }
    } else {
      PowerGrows(base, m, n - 1);
      assert base * Power(base, n - 1) >= 1.0 * Power(base, n - 1);
    }
  }

  lemma FactorGrows(base: real, a: nat, b: nat)
    requires base >= 1.0 && a <= b
    ensures 1.0 <= Factor(base, a) <= Factor(base, b)
  {
    PowerGrows(base, if a > 1 then a - 1 else 0, if b > 1 then b - 1 else 0);
  }

  lemma ScaledGrows(p: RetryPolicy, a: nat, b: nat)
    requires p.backoffCoefficient >= 1.0 && p.initialInterval >= 0 && a <= b
    ensures 0.0 <= Scaled(p, a) <= Scaled(p, b)
  {
    hide Factor;
    var i, x, y := p.initialInterval as real, Factor(p.backoffCoefficient, a), Factor(p.backoffCoefficient, b);
    FactorGrows(p.backoffCoefficient, a, b);
    assert 0.0 <= i * x <= i * y;
  }

  lemma TruncateGrows(x: real, y: real)
    requires 0.0 <= x <= y
    ensures 0 <= Truncate(x) <= Truncate(y)
  {
  }

  /** With a coefficient of at least one, later attempts never wait less. */
  lemma BackoffGrows(p: RetryPolicy, a: nat, b: nat)
    requires p.backoffCoefficient >= 1.0 && p.initialInterval >= 0 && a <= b
    ensures ComputeBackoff(p, a) <= ComputeBackoff(p, b)
  {
    hide Scaled, Truncate;
    ScaledGrows(p, a, b);
    TruncateGrows(Scaled(p, a), Scaled(p, b));
  }

  /** The first wait is the initial interval, cut at the maximum if there is one; no wait is below
      zero. */
  lemma FirstBackoff(p: RetryPolicy)
    ensures p.initialInterval < 0 ==> ComputeBackoff(p, 1) == 0
    ensures p.initialInterval >= 0 ==>
      ComputeBackoff(p, 1) ==
        if p.maximumInterval > 0 && p.initialInterval > p.maximumInterval then p.maximumInterval else p.initialInterval
  {
    assert Scaled(p, 1) == p.initialInterval as real;
  }

  /** Without a maximum, a whole coefficient makes every wait that many times the one before. */
  lemma BackoffMultiplies(p: RetryPolicy, k: nat, n: nat)
    requires p.initialInterval >= 0 && p.maximumInterval <= 0 && p.backoffCoefficient == k as real && k >= 1 && n >= 1
    ensures ComputeBackoff(p, n + 1) == k * ComputeBackoff(p, n)
  {
    WholePower(k, n - 1);
    WholePower(k, n);
    var x, y, i := WholePowerOf(k, n - 1), WholePowerOf(k, n), p.initialInterval;
    assert Scaled(p, n) == (i * x) as real;
    assert Scaled(p, n + 1) == (i * y) as real;
    assert i * x >= 0 && i * y == k * (i * x);
  }

  function WholePowerOf(k: nat, n: nat): nat {
    if n == 0 then 1 else k * WholePowerOf(k, n - 1)
  }

  lemma {:induction false} WholePower(k: nat, n: nat)
    ensures Power(k as real, n) == WholePowerOf(k, n) as real
    decreases n
  {
    if n == 0 {
    } else {
      WholePower(k, n - 1);
    }
  }

  /** A maximum cuts the wait there would be without it. */
  lemma MaximumCuts(p: RetryPolicy, n: nat)
    requires p.maximumInterval > 0
    ensures
      var uncut := ComputeBackoff(p.(maximumInterval := 0), n);
      ComputeBackoff(p, n) == if uncut > p.maximumInterval then p.maximumInterval else uncut
  {
    assert Scaled(p, n) == Scaled(p.(maximumInterval := 0), n);
  }

  /** Whatever the coefficient, the wait is the whole part of the exact one: the initial interval
      multiplied once more for each attempt after the first. */
  lemma BackoffIsTheWholePart(p: RetryPolicy, n: nat)
    requires p.initialInterval >= 0 && p.backoffCoefficient >= 0.0 && p.maximumInterval <= 0 && n >= 1
    ensures
      var exact := Multiplied(p.initialInterval as real, p.backoffCoefficient, n - 1);
      ComputeBackoff(p, n) as real <= exact < ComputeBackoff(p, n) as real + 1.0
  {
    MultipliedIsScaled(p.initialInterval as real, p.backoffCoefficient, n - 1);
    var exact := Multiplied(p.initialInterval as real, p.backoffCoefficient, n - 1);
    assert Scaled(p, n) == exact;
    NotBelowZero(p.initialInterval as real, p.backoffCoefficient, n - 1);
  }

  function Multiplied(x: real, factor: real, times: nat): real
    decreases times
  {
    if times == 0 then x else Multiplied(x * factor, factor, times - 1)
  }

  lemma {:induction false} MultipliedIsScaled(x: real, factor: real, n: nat)
    ensures Multiplied(x, factor, n) == x * Power(factor, n)
    decreases n
  {
    if n == 0 {
    } else {
      MultipliedIsScaled(x * factor, factor, n - 1);
      assert x * factor * Power(factor, n - 1) == x * (factor * Power(factor, n - 1));
    }
  }

  lemma {:induction false} NotBelowZero(x: real, factor: real, n: nat)
    requires x >= 0.0 && factor >= 0.0
    ensures Multiplied(x, factor, n) >= 0.0
    decreases n
  {
    if n == 0 {
    } else {
      assert x * factor >= 0.0;
      NotBelowZero(x * factor, factor, n - 1);
    }
  }

  // Visits with a clock.

  /** When a chapter was created, and the policy its writer retries under. */
  datatype Stamp = Stamp(created: int, policy: RetryPolicy)

  /** `now` is the clock.  `held` are the places where a back-off was found to be still running,
      with the policy it was computed by. */
  datatype Timed = Timed(s: State, stamps: seq<Stamp>, now: int, held: map<nat, RetryPolicy>)

  /** What a visit cannot know: the outcomes, the time that passes before the back-off in front of
      an ordinal is looked at, and the time that passes before the chapter there is written. */
  datatype Course = Course(outcome: nat -> Outcome, pause: nat -> nat, work: nat -> nat, threshold: int)

  const FIVE_MINUTES := 300_000_000_000

  function Threshold(k: Course): int {
    if k.threshold <= 0 then FIVE_MINUTES else k.threshold
  }

  /** `awaitUntil` in front of ordinal n: the clock when the visit goes on, or None when it does
      not.  A failure read from the log counts from its creation, one just written from now. */
  function Pass(k: Course, replay: bool, p: RetryPolicy, attempt: nat, n: nat, now: int,
      created: Option<int>): Option<int> {
    var checked := now + k.pause(n);
    var wakeAt := (if created.Some? then created.value else checked) + ComputeBackoff(p, attempt);
    if wakeAt <= checked then Some(checked)
    else if replay || wakeAt - checked > Threshold(k) then None
    else Some(wakeAt)
  }

  /** What a visit does about a back-off whose time is `wakeAt`: it goes on at once if that has come;
      a replay stops, a live visit stops if more than five minutes are left, or more than the
      threshold it was given, and otherwise sleeps until then. */
  lemma WaitsExactly(k: Course, replay: bool, p: RetryPolicy, attempt: nat, n: nat, now: int, created: Option<int>)
    ensures
      var checked := now + k.pause(n);
      var failed := if created.Some? then created.value else checked;
      var left := failed + ComputeBackoff(p, attempt) - checked;
      var longest := if k.threshold > 0 then k.threshold else 5 * 60 * 1_000_000_000;
      && (Pass(k, replay, p, attempt, n, now, created) == None <==> left > 0 && (replay || left > longest))
      && (Pass(k, replay, p, attempt, n, now, created).Some? ==>
            Pass(k, replay, p, attempt, n, now, created).value == if left > 0 then checked + left else checked)
  {
  }

  predicate Sane(t: Timed) {
    && t.s.pos <= |t.s.log| == |t.stamps|
    && (forall i :: 0 <= i < |t.stamps| ==> t.stamps[i].created <= t.now)
  }

  predicate Later(t: Timed, u: Timed) {
    t.stamps <= u.stamps && t.now <= u.now
  }

  predicate HeldBehind(t: Timed) {
    forall n :: n in t.held ==> n <= t.s.pos
  }

  function Stamped(k: Course, t: Timed, p: RetryPolicy, ch: Chapter): (u: Timed)
    requires Sane(t) && t.s.budget > 0 && t.s.pos == |t.s.log|
    ensures Sane(u) && (HeldBehind(t) ==> HeldBehind(u))
  {
    var now := t.now + k.work(t.s.pos);
    Timed(Write(t.s, ch), t.stamps + [Stamp(now, p)], now, t.held)
  }

  function Held(t: Timed, p: RetryPolicy): (u: Timed)
    requires Sane(t) && HeldBehind(t)
    ensures Sane(u) && HeldBehind(u)
  {
    t.(held := t.held[t.s.pos := p])
  }

  datatype TimedTaskStep = TimedTaskStep(reply: Reply, state: Timed)

  datatype TimedWorkerStep = TimedFinished(result: JobResult, state: Timed) | TimedStopped(stop: Stop, state: Timed)

  datatype TimedVisit = TimedVisit(stop: Stop, state: Timed)

  function TimedTask(c: Config, k: Course, p: RetryPolicy, task: string, input: string, attempt: nat, t: Timed):
    (r: TimedTaskStep)
    requires Sane(t) && HeldBehind(t)
    ensures Sane(r.state) && HeldBehind(r.state) && Advances(c, t.s, r.state.s) && Later(t, r.state)
    ensures r.reply.Returned? ==> t.s.pos < r.state.s.pos || r.state.s.budget < t.s.budget
    decreases |t.s.log| - t.s.pos, AttemptsLeft(p, attempt), 1
  {
    var s := t.s;
    if s.pos < |s.log| then
      var u := t.(s := s.(pos := s.pos + 1));
      match Read(p, input, s.log[s.pos], s.pos)
      case Reply(ret) => TimedTaskStep(Returned(ret), u)
      case Again(next) =>
        match Pass(k, c.replay, p, next - 1, u.s.pos, t.now, Some(t.stamps[s.pos].created))
        case Some(now) => TimedTask(c, k, p, task, input, next, u.(now := now))
        case None =>
          if c.replay then TimedTaskStep(Returned(Missed(Miss(s.pos, AwaitNotReady))), Held(u, p))
          else TimedTaskStep(Halted(Parked(u.s.pos)), Held(u, p))
    else TimedRun(c, k, p, task, input, attempt, t)
  }

  /** The part of the loop past the log. */
  function TimedRun(c: Config, k: Course, p: RetryPolicy, task: string, input: string, attempt: nat, t: Timed):
    (r: TimedTaskStep)
    requires Sane(t) && HeldBehind(t) && t.s.pos == |t.s.log|
    ensures Sane(r.state) && HeldBehind(r.state) && Advances(c, t.s, r.state.s) && Later(t, r.state)
    ensures r.reply.Returned? ==> t.s.pos < r.state.s.pos || r.state.s.budget < t.s.budget
    decreases 0, AttemptsLeft(p, attempt), 0
  {
    var s := t.s;
    if c.replay then
      if s.budget == 0 then TimedTaskStep(Halted(Cut), t)
      else TimedTaskStep(Returned(Missed(Miss(s.pos, TaskResultMissing))), t.(s := s.(budget := s.budget - 1)))
    else if task !in c.local then TimedTaskStep(Halted(External(s.pos, task, input)), t)
    else
      var started := t.(s := s.(ran := s.ran + [s.pos]));
      if s.budget == 0 then TimedTaskStep(Halted(Cut), started)
      else
        var u := Stamped(k, started, p, TaskOutcome(task, HashOf(input), attempt, k.outcome(s.pos)));
        match Judge(p, attempt, k.outcome(s.pos))
        case Reply(ret) => TimedTaskStep(Returned(ret), u)
        case Again(next) =>
          match Pass(k, false, p, attempt, u.s.pos, u.now, None)
          case Some(now) => TimedTask(c, k, p, task, input, next, u.(now := now))
          case None => TimedTaskStep(Halted(Parked(u.s.pos)), Held(u, p))
  }

  function TimedWorker(c: Config, k: Course, policy: RunPolicy, input: string, hist: seq<Return>, t: Timed):
    (r: TimedWorkerStep)
    requires Sane(t) && HeldBehind(t)
    ensures Sane(r.state) && HeldBehind(r.state) && Advances(c, t.s, r.state.s) && Later(t, r.state)
    decreases |t.s.log| - t.s.pos + t.s.budget
  {
    match c.program(input, hist)
    case Finish(result) => TimedFinished(result, t)
    case DoTask(over, task, taskInput) =>
      var step := TimedTask(c, k, Effective(over, policy), task, taskInput, 1, t);
      match step.reply
      case Halted(stop) => TimedStopped(stop, step.state)
      case Returned(ret) => TimedWorker(c, k, policy, input, hist + [ret], step.state)
  }

  function TimedJob(c: Config, k: Course, policy: RunPolicy, input: string, attempt: nat, t: Timed): (r: TimedVisit)
    requires Sane(t) && HeldBehind(t)
    ensures Sane(r.state) && Advances(c, t.s, r.state.s) && Later(t, r.state)
    decreases |t.s.log| - t.s.pos, AttemptsLeft(policy.retry, attempt), 2
  {
    if t.s.pos < |t.s.log| && t.s.log[t.s.pos].JobOutcome? then
      TimedCached(c, k, policy, input, t)
    else
      match TimedWorker(c, k, policy, input, [], t)
      case TimedStopped(stop, u) => TimedVisit(stop, u)
      case TimedFinished(result, u) => TimedSettle(c, k, policy, input, attempt, result, u)
  }

  function TimedSettle(c: Config, k: Course, policy: RunPolicy, input: string, attempt: nat, result: JobResult,
      t: Timed):
    (r: TimedVisit)
    requires Sane(t) && HeldBehind(t)
    ensures Sane(r.state) && Advances(c, t.s, r.state.s) && Later(t, r.state)
    decreases |t.s.log| - t.s.pos, AttemptsLeft(policy.retry, attempt), 1
  {
    if result.Nothing? then TimedVisit(Silent, t)
    else if t.s.pos < |t.s.log| then TimedCached(c, k, policy, input, t)
    else if c.replay then TimedVisit(ReplayEnd(result, t.s.pos), t)
    else if t.s.budget == 0 then TimedVisit(Cut, t)
    else
      var u := Stamped(k, t, policy.retry, JobOutcome(HashOf(input), attempt, Recorded(result)));
      match JudgeJob(policy.retry, attempt, Recorded(result))
      case Terminal(o) => TimedVisit(Completed(o), u)
      case RetryAs(next) =>
        match Pass(k, false, policy.retry, attempt, u.s.pos, u.now, None)
        case Some(now) => TimedJob(c, k, policy, input, next, u.(now := now))
        case None => TimedVisit(Parked(u.s.pos), Held(u, policy.retry))
  }

  function TimedCached(c: Config, k: Course, policy: RunPolicy, input: string, t: Timed): (r: TimedVisit)
    requires Sane(t) && HeldBehind(t) && t.s.pos < |t.s.log|
    ensures Sane(r.state) && Advances(c, t.s, r.state.s) && Later(t, r.state)
    decreases |t.s.log| - t.s.pos, 0, 0
  {
    var u := t.(s := t.s.(pos := t.s.pos + 1));
    match ReadJob(policy.retry, input, t.s.log[t.s.pos])
    case Bad => TimedVisit(Broken(t.s.pos), t)
    case Terminal(o) =>
      var v := OnTerminal(c, o, t.s);
      TimedVisit(v.stop, t.(s := v.state))
    case RetryAs(next) =>
      match Pass(k, c.replay, policy.retry, next - 1, u.s.pos, t.now, Some(t.stamps[t.s.pos].created))
      case Some(now) => TimedJob(c, k, policy, input, next, u.(now := now))
      case None =>
        if c.replay then TimedVisit(MissedAt(Miss(t.s.pos, AwaitNotReady)), t.(held := t.held[u.s.pos := policy.retry]))
        else TimedVisit(Parked(u.s.pos), t.(held := t.held[u.s.pos := policy.retry]))
  }

  /** A visit that need not stop tries again exactly when the back-off is over: the second chapter
      follows the first by the back-off and by what the clock ran on meanwhile, no more. */
  lemma RetryComesOnTime(c: Config, k: Course, p: RetryPolicy, task: string, input: string, attempt: nat, t: Timed)
    requires Sane(t) && HeldBehind(t) && t.s.pos == |t.s.log| && !c.replay && task in c.local && t.s.budget >= 2
    requires Judge(p, attempt, k.outcome(t.s.pos)).Again? && ComputeBackoff(p, attempt) <= Threshold(k)
    ensures
      var n := t.s.pos;
      var stamps := TimedTask(c, k, p, task, input, attempt, t).state.stamps;
      && |stamps| >= n + 2 && stamps[n] == Stamp(t.now + k.work(n), p)
      && stamps[n + 1] ==
           Stamp(stamps[n].created + k.pause(n + 1) + ComputeBackoff(p, attempt) + k.work(n + 1), p)
  {
    hide ComputeBackoff, IsRetryable, Advances;
    var n := t.s.pos;
    var ch := TaskOutcome(task, HashOf(input), attempt, k.outcome(n));
    var u := Stamped(k, t.(s := t.s.(ran := t.s.ran + [n])), p, ch);
    var pass := Pass(k, false, p, attempt, n + 1, u.now, None);
    assert pass == Some(u.now + k.pause(n + 1) + ComputeBackoff(p, attempt));
    FirstStamp(c, k, p, task, input, attempt + 1, u.(now := pass.value));
  }

  lemma FirstStamp(c: Config, k: Course, p: RetryPolicy, task: string, input: string, attempt: nat, t: Timed)
    requires Sane(t) && HeldBehind(t) && t.s.pos == |t.s.log| && !c.replay && task in c.local && t.s.budget >= 1
    ensures
      var stamps := TimedTask(c, k, p, task, input, attempt, t).state.stamps;
      t.stamps + [Stamp(t.now + k.work(t.s.pos), p)] <= stamps
  {
    hide IsRetryable, Advances, Pass;
  }
}
