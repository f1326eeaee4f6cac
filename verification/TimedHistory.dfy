/**
 The history behind a log decides the policy every chapter was written under, and a visit with a
 clock that follows it meets no back-off that a chapter behind it has already answered.
 */
module TimedHistories {
  import opened Retry
  import opened Chapters
  import opened Runner
  import opened Resume
  import opened Crash
  import opened History
  import opened Restart
  import opened Backoff
  import opened Clocks
  import opened ClockRuns

  // The policies of a history.

  function Repeat(p: RetryPolicy, n: nat): (ps: seq<RetryPolicy>)
    ensures |ps| == n && forall i :: 0 <= i < n ==> ps[i] == p
  {
    seq(n, i => p)
  }

  function CallPolicies(calls: seq<CallRecord>): (ps: seq<RetryPolicy>)
    ensures |ps| == |Written(calls)|
  {
    if calls == [] then [] else Repeat(calls[0].policy, |calls[0].chapters|) + CallPolicies(calls[1..])
  }

  /** The policy each chapter of a history was written under: its call's, or the job's. */
  function Policies(h: seq<AttemptRecord>, job: RetryPolicy): (ps: seq<RetryPolicy>)
    ensures |ps| == |Flat(h)|
  {
    if h == [] then []
    else CallPolicies(h[0].calls) + (if h[0].outcome.Some? then [job] else []) + Policies(h[1..], job)
  }

  /** h is a history of the program that this log tells. */
  ghost predicate Tells(c: Config, start: Chapter, log: seq<Chapter>, h: seq<AttemptRecord>)
    requires start.JobStart?
  {
    var policy := JobPolicy(c, start);
    && log == [start] + Flat(h)
    && GoodHistory(h, policy.retry, HashOf(start.input), 1) && ByProgram(c, policy, start.input, h, false)
  }

  // A log tells its policies in one way only.

  lemma {:induction false} FirstChains(p: RetryPolicy, a: seq<CallRecord>, b: seq<CallRecord>, wa: bool, wb: bool)
    requires a != [] && b != [] && Written(a) <= Written(b)
    requires Chain(p, 1, a[0].chapters, wa || |a| > 1) && Chain(p, 1, b[0].chapters, wb || |b| > 1)
    ensures |a[0].chapters| <= |b[0].chapters| && (|a| > 1 ==> a[0].chapters == b[0].chapters)
  {
    var ca, cb := a[0].chapters, b[0].chapters;
    forall i | 0 <= i < |ca| && i < |cb| ensures ca[i] == cb[i] {
      assert Written(a)[i] == ca[i] && Written(b)[i] == cb[i];
    }
    if |b| > 1 {
      SameChain(p, ca, cb, wa || |a| > 1);
    } else {
      OneCall(b);
      assert |ca| <= |Written(a)|;
      if |a| > 1 { SameChain(p, cb, ca, wb); }
    }
  }

  lemma {:induction false} CallsAgree(c: Config, policy: RunPolicy, input: string, hist: seq<Return>,
      a: seq<CallRecord>, b: seq<CallRecord>, wa: bool, wb: bool)
    requires Made(c, policy, input, hist, a, wa) && Made(c, policy, input, hist, b, wb) && Written(a) <= Written(b)
    ensures CallPolicies(a) <= CallPolicies(b)
    decreases |a|
  {
    if a == [] {
    } else {
      var p := a[0].policy;
      assert Written(a)[0] == a[0].chapters[0];
      FirstChains(p, a, b, wa, wb);
      if |a| == 1 {
        OneCall(a);
        assert CallPolicies(a) == Repeat(p, |a[0].chapters|) by { assert a[1..] == []; }
        assert CallPolicies(b) == Repeat(p, |b[0].chapters|) + CallPolicies(b[1..]);
      } else {
        var k := |a[0].chapters|;
        assert Written(a[1..]) == Written(a)[k..] && Written(b[1..]) == Written(b)[k..];
        CallsAgree(c, policy, input, hist + [Answer(a[0])], a[1..], b[1..], wa, wb);
      }
    }
  }

  /** What a history begins with. */
  lemma {:induction false} FirstPolicies(h: seq<AttemptRecord>, p: RetryPolicy, hash: string, n: nat)
    requires GoodHistory(h, p, hash, n) && h != []
    ensures
      var k := |Written(h[0].calls)|;
      && k <= |Flat(h)| && Policies(h, p)[..k] == CallPolicies(h[0].calls)
      && (h[0].outcome.None? ==> Policies(h, p) == CallPolicies(h[0].calls))
      && (h[0].outcome.Some? ==>
            k < |Flat(h)| && Policies(h, p)[k] == p && Policies(h, p)[k + 1..] == Policies(h[1..], p))
  {
    FirstOutcome(h, p, hash, n);
    if h[0].outcome.None? { assert h[1..] == []; }
  }

  lemma {:induction false} PoliciesAgree(c: Config, policy: RunPolicy, input: string, a: seq<AttemptRecord>,
      b: seq<AttemptRecord>, n: nat)
    requires GoodHistory(a, policy.retry, HashOf(input), n) && ByProgram(c, policy, input, a, false)
    requires GoodHistory(b, policy.retry, HashOf(input), n) && ByProgram(c, policy, input, b, false)
    requires Flat(a) <= Flat(b)
    ensures Policies(a, policy.retry) <= Policies(b, policy.retry)
    decreases |a|
  {
    hide GoodHistory, ByProgram, Written, CallPolicies;
    var p, hash := policy.retry, HashOf(input);
    if Flat(a) == [] {
    } else {
      FirstOutcome(a, p, hash, n);
      FirstOutcome(b, p, hash, n);
      FirstAreTasks(c, policy, input, a, n, false);
      FirstAreTasks(c, policy, input, b, n, false);
      FirstPolicies(a, p, hash, n);
      FirstPolicies(b, p, hash, n);
      FirstCallsAgree(c, policy, input, a, b);
      if a[0].outcome.Some? {
        LaterAttempts(c, policy, input, a, n, false);
        LaterAttempts(c, policy, input, b, n, false);
        PoliciesAgree(c, policy, input, a[1..], b[1..], n + 1);
      }
    }
  }

  lemma {:induction false} FirstCallsAgree(c: Config, policy: RunPolicy, input: string, a: seq<AttemptRecord>,
      b: seq<AttemptRecord>)
    requires ByProgram(c, policy, input, a, false) && ByProgram(c, policy, input, b, false) && a != [] && b != []
    requires Written(a[0].calls) <= Written(b[0].calls)
    ensures CallPolicies(a[0].calls) <= CallPolicies(b[0].calls)
  {
    CallsAgree(c, policy, input, [], a[0].calls, b[0].calls, a[0].outcome.Some?, b[0].outcome.Some?);
  }

  // A visit with a clock follows the history.

  /** `log` is the log the visit ends on, or more; `ps` are the policies of its chapters and `job` is
      the job's own.  The first `from` chapters were there before. */
  datatype Track = Track(log: seq<Chapter>, ps: seq<RetryPolicy>, job: RetryPolicy, from: nat)

  /** Chapter n answers the failure before it in time. */
  ghost predicate InTime(k: Track, stamps: seq<Stamp>, n: nat)
    requires 0 < n < |k.log| == |k.ps| && n < |stamps|
  {
    var failed := stamps[n - 1].created;
    if RetriesJob(k.log, n) then failed + ComputeBackoff(k.job, AttemptOf(k.log[n - 1].attempt)) <= stamps[n].created
    else RetriesTask(k.log, n) ==> failed + ComputeBackoff(k.ps[n], k.log[n].attempt - 1) <= stamps[n].created
  }

  ghost predicate OnTrack(k: Track, t: Timed) {
    && Sane(t) && HeldBehind(t) && |k.log| == |k.ps| && k.from <= |t.s.log| && t.s.log <= k.log
    && (t.s.pos == |t.s.log| || |t.s.log| == k.from)
    && (forall n: nat :: 0 < n < k.from ==> InTime(k, t.stamps, n))
  }

  /** Nothing was held before the end of the old log, and what was written is stamped as the history
      says. */
  ghost predicate Follows(k: Track, t: Timed, r: Timed) {
    && |k.log| == |k.ps| && Sane(r) && r.s.log <= k.log && t.s.log <= r.s.log && Later(t, r)
    && (forall n :: n in r.held ==> n in t.held || n >= k.from)
    && (forall n :: |t.s.log| <= n < |r.s.log| ==> r.stamps[n].policy == k.ps[n])
  }

  lemma {:induction false} FollowsJoins(k: Track, t: Timed, u: Timed, r: Timed)
    requires Follows(k, t, u) && Follows(k, u, r)
    ensures Follows(k, t, r)
  {
    forall n | |t.s.log| <= n < |r.s.log| ensures r.stamps[n].policy == k.ps[n] {
      if n < |u.s.log| { assert r.stamps[n] == u.stamps[n]; }
    }
  }

  /** Going on from t, with nothing written. */
  lemma {:induction false} MovesOn(k: Track, t: Timed, u: Timed)
    requires OnTrack(k, t) && u == t.(s := u.s, now := u.now) && u.s.log == t.s.log && t.now <= u.now
    requires t.s.pos <= u.s.pos <= |u.s.log|
    ensures Follows(k, t, u) && OnTrack(k, u)
  {
  }

  lemma {:induction false} WritesOn(c: Course, k: Track, t: Timed, ran: seq<nat>, p: RetryPolicy, ch: Chapter)
    requires OnTrack(k, t) && t.s.pos == |t.s.log| < |k.log| && t.s.budget > 0
    requires k.log[t.s.pos] == ch && k.ps[t.s.pos] == p
    ensures
      var u := Stamped(c, t.(s := t.s.(ran := ran)), p, ch);
      OnTrack(k, u) && Follows(k, t, u)
  {
    var u := Stamped(c, t.(s := t.s.(ran := ran)), p, ch);
    assert t.s.log + [ch] == k.log[..|t.s.log| + 1];
    forall n: nat | 0 < n < k.from ensures InTime(k, u.stamps, n) {
      assert InTime(k, t.stamps, n) && u.stamps[n] == t.stamps[n] && u.stamps[n - 1] == t.stamps[n - 1];
    }
  }

  lemma {:induction false} HoldsOn(k: Track, t: Timed, u: Timed, n: nat, p: RetryPolicy)
    requires OnTrack(k, t) && u == t.(s := u.s, held := t.held[n := p]) && u.s.log == t.s.log && Sane(u) && n >= k.from
    ensures Follows(k, t, u)
    ensures HeldBehind(u) && t.s.pos <= u.s.pos ==> OnTrack(k, u)
  {
  }

  /** Where the old log answers the failure at t, its back-off is over. */
  lemma {:induction false} AnsweredIsOver(c: Course, replay: bool, k: Track, t: Timed, p: RetryPolicy, attempt: nat)
    requires OnTrack(k, t) && t.s.pos + 1 < k.from && !k.log[t.s.pos].JobStart?
    requires
      if k.log[t.s.pos].JobOutcome? then p == k.job && attempt == AttemptOf(k.log[t.s.pos].attempt)
      else
        && k.ps[t.s.pos + 1] == p && k.log[t.s.pos + 1].TaskOutcome? && k.log[t.s.pos + 1].attempt == attempt + 1
        && attempt >= 1
    ensures Pass(c, replay, p, attempt, t.s.pos + 1, t.now, Some(t.stamps[t.s.pos].created)).Some?
  {
    hide ComputeBackoff;
    assert InTime(k, t.stamps, t.s.pos + 1);
  }

  /** The rest of a call's chain stands at t in the log the visit ends on. */
  ghost predicate CallAhead(k: Track, pos: nat, p: RetryPolicy, task: string, input: string, attempt: nat,
      rest: seq<Chapter>, whole: bool)
  {
    && pos + |rest| <= |k.log| == |k.ps| && attempt >= 1
    && k.log[pos..pos + |rest|] == rest
    && k.ps[pos..pos + |rest|] == Repeat(p, |rest|)
    && (rest != [] ==> Chain(p, attempt, rest, whole) && rest[0].task == task && rest[0].hash == HashOf(input))
    && (rest == [] ==> !whole)
    && (!whole ==> pos + |rest| == |k.log|)
  }

  lemma {:induction false} ChainRest(p: RetryPolicy, attempt: nat, rest: seq<Chapter>, whole: bool)
    requires rest != [] && attempt >= 1 && Chain(p, attempt, rest, whole)
    ensures
      var verdict := Judge(p, attempt, rest[0].outcome);
      && (verdict.Reply? ==> |rest| == 1)
      && (verdict.Again? ==> verdict.attempt == attempt + 1)
      && (verdict.Again? && rest[1..] == [] ==> !whole)
      && (verdict.Again? && rest[1..] != [] ==>
            && Chain(p, attempt + 1, rest[1..], whole) && rest[1..][0].attempt == attempt + 1
            && rest[1..][0].task == rest[0].task && rest[1..][0].hash == rest[0].hash)
  {
    if |rest| > 1 {
      assert rest[0].TaskOutcome? && Judge(p, attempt + 0, rest[0].outcome).Again?;
      assert forall i :: 0 <= i < |rest| - 1 ==> rest[1..][i] == rest[i + 1];
      var later := rest[1..];
      forall i | 0 <= i < |later| - 1 ensures Judge(p, attempt + 1 + i, later[i].outcome).Again? {
        assert Judge(p, attempt + (i + 1), rest[i + 1].outcome).Again?;
      }
    }
  }

  lemma {:induction false} CallAheadOne(k: Track, pos: nat, p: RetryPolicy, task: string, input: string, attempt: nat,
      rest: seq<Chapter>, whole: bool)
    requires CallAhead(k, pos, p, task, input, attempt, rest, whole) && pos < |k.log|
    ensures rest != [] && k.log[pos] == rest[0] && k.ps[pos] == p && attempt >= 1
    ensures !whole ==> pos + |rest| == |k.log|
    ensures rest[0].TaskOutcome? && rest[0] == TaskOutcome(task, HashOf(input), attempt, rest[0].outcome)
    ensures
      var verdict := Judge(p, attempt, rest[0].outcome);
      && (verdict.Reply? ==> |rest| == 1)
      && (verdict.Again? ==>
            CallAhead(k, pos + 1, p, task, input, attempt + 1, rest[1..], whole) && verdict.attempt == attempt + 1)
      && (verdict.Again? && pos + 1 < |k.log| ==>
            k.ps[pos + 1] == p && k.log[pos + 1].TaskOutcome? && k.log[pos + 1].attempt == attempt + 1)
  {
    assert k.log[pos..pos + |rest|] == rest;
    assert rest[0] == k.log[pos] && k.ps[pos] == Repeat(p, |rest|)[0];
    ChainRest(p, attempt, rest, whole);
    var end := pos + |rest|;
    assert k.log[pos + 1..end] == k.log[pos..end][1..] && k.ps[pos + 1..end] == k.ps[pos..end][1..];
    assert Repeat(p, |rest|)[1..] == Repeat(p, |rest[1..]|);
    if |rest| > 1 { assert rest[1] == k.log[pos + 1] && k.ps[pos + 1] == Repeat(p, |rest|)[1]; }
  }

  /** What a call that follows its chain comes back with: its last answer, or the end of the log. */
  ghost predicate Comes(k: Track, r: TimedTaskStep, pos: nat, rest: seq<Chapter>, whole: bool) {
    r.reply.Returned? ==>
      || r.state.s.pos == |k.log|
      || (&& whole && r.state.s.pos == pos + |rest| && rest != [] && rest[|rest| - 1].TaskOutcome?
          && r.reply.ret == AnswerOf(rest[|rest| - 1].outcome))
  }

  lemma {:induction false} ComesLater(k: Track, r: TimedTaskStep, pos: nat, rest: seq<Chapter>, whole: bool)
    requires rest != [] && Comes(k, r, pos + 1, rest[1..], whole)
    ensures Comes(k, r, pos, rest, whole)
  {
  }

  lemma {:induction false} ComesAtOnce(k: Track, r: TimedTaskStep, pos: nat, rest: seq<Chapter>, whole: bool)
    requires |rest| == 1 && rest[0].TaskOutcome? && r.reply == Returned(AnswerOf(rest[0].outcome))
    requires r.state.s.pos == pos + 1 && (!whole ==> pos + 1 == |k.log|)
    ensures Comes(k, r, pos, rest, whole)
  {
  }

  lemma {:induction false} ComesToAnEnd(k: Track, r: TimedTaskStep, pos: nat, rest: seq<Chapter>, whole: bool)
    requires r.reply.Halted? || r.state.s.pos == |k.log|
    ensures Comes(k, r, pos, rest, whole)
  {
  }

  lemma {:induction false} TrackAhead(k: Track, t: Timed)
    requires OnTrack(k, t)
    ensures Sane(t) && HeldBehind(t) && |k.log| == |k.ps|
    ensures t.s.log <= k.log && |t.stamps| == |t.s.log| && t.s.pos <= |t.s.log|
    ensures t.s.pos < |t.s.log| ==> t.s.log[t.s.pos] == k.log[t.s.pos] && |t.s.log| == k.from
    ensures k.from <= |t.s.log|
  {
  }

  lemma {:induction false} TaskFollows(c: Config, k: Course, p: RetryPolicy, task: string, input: string, attempt: nat,
      t: Timed, track: Track, rest: seq<Chapter>, whole: bool)
    requires OnTrack(track, t) && CallAhead(track, t.s.pos, p, task, input, attempt, rest, whole)
    requires
      var end := TimedTask(c, k, p, task, input, attempt, t).state.s.log;
      end <= track.log && (c.replay ==> t.s.log == track.log)
    ensures
      var r := TimedTask(c, k, p, task, input, attempt, t);
      Follows(track, t, r.state) && Comes(track, r, t.s.pos, rest, whole)
      && (r.reply.Returned? ==> OnTrack(track, r.state))
    decreases |t.s.log| - t.s.pos, AttemptsLeft(p, attempt), 1
  {
    hide IsRetryable, ComputeBackoff, TimedTask, TimedRun, Pass, OnTrack, Follows, Comes, CallAhead,
      Advances, HashOf;
    TrackAhead(track, t);
    if t.s.pos == |t.s.log| {
      TimedTaskRuns(c, k, p, task, input, attempt, t);
      RunFollows(c, k, p, task, input, attempt, t, track, rest, whole);
    } else {
      TimedTaskReads(c, k, p, task, input, attempt, t);
      var r := TimedTask(c, k, p, task, input, attempt, t);
      CallAheadOne(track, t.s.pos, p, task, input, attempt, rest, whole);
      var o := rest[0].outcome;
      ReaderAgreesWithWriter(p, task, input, attempt, o, t.s.pos);
      var u := t.(s := t.s.(pos := t.s.pos + 1));
      MovesOn(track, t, u);
      var verdict := Judge(p, attempt, o);
      if verdict.Again? {
        var created := Some(t.stamps[t.s.pos].created);
        var pass := Pass(k, c.replay, p, attempt, u.s.pos, t.now, created);
        PassesWhenDue(k, c.replay, p, attempt, u.s.pos, t.now, created);
        if pass.Some? {
          var v := u.(now := pass.value);
          MovesOn(track, t, v);
          TaskFollows(c, k, p, task, input, attempt + 1, v, track, rest[1..], whole);
          FollowsJoins(track, t, v, r.state);
          ComesLater(track, r, t.s.pos, rest, whole);
        } else {
          if u.s.pos < track.from { AnsweredIsOver(k, c.replay, track, t, p, attempt); }
          HoldsOn(track, t, Held(u, p), u.s.pos, p);
          ComesToAnEnd(track, r, t.s.pos, rest, whole);
        }
      } else {
        ComesAtOnce(track, r, t.s.pos, rest, whole);
      }
    }
  }

  lemma {:induction false} RunFollows(c: Config, k: Course, p: RetryPolicy, task: string, input: string, attempt: nat,
      t: Timed, track: Track, rest: seq<Chapter>, whole: bool)
    requires OnTrack(track, t) && CallAhead(track, t.s.pos, p, task, input, attempt, rest, whole)
    requires t.s.pos == |t.s.log|
    requires
      var end := TimedRun(c, k, p, task, input, attempt, t).state.s.log;
      end <= track.log && (c.replay ==> t.s.log == track.log)
    ensures
      var r := TimedRun(c, k, p, task, input, attempt, t);
      Follows(track, t, r.state) && Comes(track, r, t.s.pos, rest, whole)
      && (r.reply.Returned? ==> OnTrack(track, r.state))
    decreases 0, AttemptsLeft(p, attempt), 0
  {
    hide IsRetryable, ComputeBackoff, TimedTask, Pass, OnTrack, Follows, Comes, CallAhead, HashOf;
    TrackAhead(track, t);
    var end := TimedRun(c, k, p, task, input, attempt, t);
    if c.replay || task !in c.local || t.s.budget == 0 {
      MovesOn(track, t, end.state);
      ComesToAnEnd(track, end, t.s.pos, rest, whole);
    } else {
      var ch := TaskOutcome(task, HashOf(input), attempt, k.outcome(t.s.pos));
      var ran := t.s.ran + [t.s.pos];
      var u := Stamped(k, t.(s := t.s.(ran := ran)), p, ch);
      assert u.s.log <= end.state.s.log;
      assert u.s.log[t.s.pos] == ch;
      CallAheadOne(track, t.s.pos, p, task, input, attempt, rest, whole);
      WritesOn(k, track, t, ran, p, ch);
      TrackAhead(track, u);
      var verdict := Judge(p, attempt, ch.outcome);
      if verdict.Again? {
        var pass := Pass(k, false, p, attempt, u.s.pos, u.now, None);
        PassesWhenDue(k, false, p, attempt, u.s.pos, u.now, None);
        if pass.Some? {
          var v := u.(now := pass.value);
          MovesOn(track, u, v);
          TaskFollows(c, k, p, task, input, attempt + 1, v, track, rest[1..], whole);
          FollowsJoins(track, t, u, v);
          FollowsJoins(track, t, v, end.state);
          ComesLater(track, end, t.s.pos, rest, whole);
        } else {
          HoldsOn(track, u, end.state, u.s.pos, p);
          FollowsJoins(track, t, u, end.state);
          ComesToAnEnd(track, end, t.s.pos, rest, whole);
        }
      } else {
        ComesAtOnce(track, end, t.s.pos, rest, whole);
      }
    }
  }

  // At the end of the track nothing more is written, and nothing is held.

  ghost predicate StandsStill(t: Timed, u: Timed) {
    u == t.(s := u.s) && u.s.log == t.s.log && u.s.pos == t.s.pos
  }

  /** A live call past the log writes, if its task is here and the visit lives. */
  lemma {:induction false} TaskWrites(c: Config, k: Course, p: RetryPolicy, task: string, input: string, attempt: nat,
      t: Timed)
    requires Sane(t) && HeldBehind(t) && t.s.pos == |t.s.log|
    requires !c.replay && task in c.local && t.s.budget > 0
    ensures |TimedTask(c, k, p, task, input, attempt, t).state.s.log| > |t.s.log|
  {
    hide Pass, IsRetryable;
    TimedTaskRuns(c, k, p, task, input, attempt, t);
    var ch := TaskOutcome(task, HashOf(input), attempt, k.outcome(t.s.pos));
    var u := Stamped(k, t.(s := t.s.(ran := t.s.ran + [t.s.pos])), p, ch);
    assert u.s.log <= TimedTask(c, k, p, task, input, attempt, t).state.s.log;
  }

  lemma {:induction false} TaskAtEnd(c: Config, k: Course, p: RetryPolicy, task: string, input: string, attempt: nat,
      t: Timed)
    requires Sane(t) && HeldBehind(t) && t.s.pos == |t.s.log|
    requires TimedTask(c, k, p, task, input, attempt, t).state.s.log == t.s.log
    ensures StandsStill(t, TimedTask(c, k, p, task, input, attempt, t).state)
  {
    hide Pass, IsRetryable, TimedTask;
    TimedTaskRuns(c, k, p, task, input, attempt, t);
    if !c.replay && task in c.local && t.s.budget > 0 { TaskWrites(c, k, p, task, input, attempt, t); }
  }

  lemma {:induction false} WorkerAtEnd(c: Config, k: Course, policy: RunPolicy, input: string, hist: seq<Return>,
      t: Timed)
    requires Sane(t) && HeldBehind(t) && t.s.pos == |t.s.log|
    requires TimedWorker(c, k, policy, input, hist, t).state.s.log == t.s.log
    ensures StandsStill(t, TimedWorker(c, k, policy, input, hist, t).state)
    decreases t.s.budget
  {
    hide TimedTask;
    match c.program(input, hist)
    case Finish(_) =>
    case DoTask(over, task, taskInput) =>
      var u := TimedTask(c, k, Effective(over, policy), task, taskInput, 1, t);
      assert u.state.s.log <= TimedWorker(c, k, policy, input, hist, t).state.s.log;
      TaskAtEnd(c, k, Effective(over, policy), task, taskInput, 1, t);
      if u.reply.Returned? {
        WorkerAtEnd(c, k, policy, input, hist + [u.reply.ret], u.state);
      }
  }

  lemma {:induction false} SettleWrites(c: Config, k: Course, policy: RunPolicy, input: string, attempt: nat,
      result: JobResult, t: Timed)
    requires Sane(t) && HeldBehind(t) && t.s.pos == |t.s.log|
    requires !result.Nothing? && !c.replay && t.s.budget > 0
    ensures |TimedSettle(c, k, policy, input, attempt, result, t).state.s.log| > |t.s.log|
  {
    hide Pass, IsRetryable, TimedJob;
    var u := Stamped(k, t, policy.retry, JobOutcome(HashOf(input), attempt, Recorded(result)));
    assert u.s.log <= TimedSettle(c, k, policy, input, attempt, result, t).state.s.log;
  }

  lemma {:induction false} SettleAtEnd(c: Config, k: Course, policy: RunPolicy, input: string, attempt: nat,
      result: JobResult, t: Timed)
    requires Sane(t) && HeldBehind(t) && t.s.pos == |t.s.log|
    requires TimedSettle(c, k, policy, input, attempt, result, t).state.s.log == t.s.log
    ensures StandsStill(t, TimedSettle(c, k, policy, input, attempt, result, t).state)
  {
    hide Pass, IsRetryable, TimedJob;
    if !result.Nothing? && !c.replay && t.s.budget > 0 { SettleWrites(c, k, policy, input, attempt, result, t); }
  }

  lemma {:induction false} JobAtEnd(c: Config, k: Course, policy: RunPolicy, input: string, attempt: nat, t: Timed)
    requires Sane(t) && HeldBehind(t) && t.s.pos == |t.s.log|
    requires TimedJob(c, k, policy, input, attempt, t).state.s.log == t.s.log
    ensures StandsStill(t, TimedJob(c, k, policy, input, attempt, t).state)
  {
    hide TimedWorker, TimedSettle;
    var w := TimedWorker(c, k, policy, input, [], t);
    assert w.state.s.log <= TimedJob(c, k, policy, input, attempt, t).state.s.log;
    WorkerAtEnd(c, k, policy, input, [], t);
    if w.TimedFinished? { SettleAtEnd(c, k, policy, input, attempt, w.result, w.state); }
  }

  /** On a track that has come to its end. */
  lemma {:induction false} StillFollows(k: Track, t: Timed, u: Timed)
    requires OnTrack(k, t) && StandsStill(t, u)
    ensures Follows(k, t, u) && OnTrack(k, u)
  {
  }

  // A pass of the job worker, call by call.

  ghost predicate CallsAhead(k: Track, pos: nat, calls: seq<CallRecord>, whole: bool) {
    var end := pos + |Written(calls)|;
    && end <= |k.log| == |k.ps|
    && k.log[pos..end] == Written(calls) && k.ps[pos..end] == CallPolicies(calls)
    && (!whole ==> end == |k.log|)
  }

  lemma {:induction false} SplitAhead<T>(whole: seq<T>, pos: nat, first: seq<T>, rest: seq<T>)
    requires pos + |first| + |rest| <= |whole| && whole[pos..pos + |first| + |rest|] == first + rest
    ensures whole[pos..pos + |first|] == first && whole[pos + |first|..pos + |first| + |rest|] == rest
  {
    var all := whole[pos..pos + |first| + |rest|];
    assert whole[pos..pos + |first|] == all[..|first|];
    assert whole[pos + |first|..pos + |first| + |rest|] == all[|first|..];
  }

  lemma {:induction false} FirstCallAhead(c: Config, policy: RunPolicy, input: string, hist: seq<Return>, k: Track,
      pos: nat, calls: seq<CallRecord>, whole: bool)
    requires Made(c, policy, input, hist, calls, whole) && CallsAhead(k, pos, calls, whole) && calls != []
    ensures c.program(input, hist).DoTask?
    ensures
      var asked := c.program(input, hist);
      var rest := calls[0].chapters;
      && CallAhead(k, pos, Effective(asked.policy, policy), asked.task, asked.input, 1, rest, whole || |calls| > 1)
      && CallsAhead(k, pos + |rest|, calls[1..], whole) && |Written(calls)| == |rest| + |Written(calls[1..])|
      && Made(c, policy, input, hist + [Answer(calls[0])], calls[1..], whole)
      && rest != [] && rest[|rest| - 1].TaskOutcome? && Answer(calls[0]) == AnswerOf(rest[|rest| - 1].outcome)
  {
    hide Effective, HashOf, IsRetryable;
    var rest := calls[0].chapters;
    SplitAhead(k.log, pos, rest, Written(calls[1..]));
    SplitAhead(k.ps, pos, Repeat(calls[0].policy, |rest|), CallPolicies(calls[1..]));
    assert rest[|rest| - 1].TaskOutcome?;
    if |calls| == 1 { OneCall(calls); }
  }

  ghost predicate Arrives(k: Track, r: TimedWorkerStep, pos: nat, calls: seq<CallRecord>, whole: bool, o: Outcome) {
    r.TimedFinished? ==>
      || r.state.s.pos == |k.log|
      || (whole && r.state.s.pos == pos + |Written(calls)| && !r.result.Nothing? && Recorded(r.result) == o)
  }

  lemma {:induction false} WorkerFinishes(c: Config, k: Course, policy: RunPolicy, input: string, hist: seq<Return>,
      t: Timed)
    requires Sane(t) && HeldBehind(t) && c.program(input, hist).Finish?
    ensures TimedWorker(c, k, policy, input, hist, t) == TimedFinished(c.program(input, hist).result, t)
    ensures Written([]) == []
  {
  }

  /** The first call of a pass leaves less to do and a log that the pass extends. */
  lemma {:induction false} WorkerGoesOn(c: Config, k: Course, policy: RunPolicy, input: string, hist: seq<Return>,
      t: Timed)
    requires Sane(t) && HeldBehind(t) && c.program(input, hist).DoTask?
    ensures
      var asked := c.program(input, hist);
      var r := TimedWorker(c, k, policy, input, hist, t);
      var u := TimedTask(c, k, Effective(asked.policy, policy), asked.task, asked.input, 1, t);
      && u.state.s.log <= r.state.s.log && (c.replay ==> u.state.s.log == t.s.log)
      && (u.reply.Halted? ==> r == TimedStopped(u.reply.stop, u.state))
      && (u.reply.Returned? ==>
            && r == TimedWorker(c, k, policy, input, hist + [u.reply.ret], u.state)
            && 0 <= |u.state.s.log| - u.state.s.pos + u.state.s.budget < |t.s.log| - t.s.pos + t.s.budget)
  {
    hide TimedTask;
  }

  lemma {:induction false} WorkerFollows(c: Config, k: Course, policy: RunPolicy, input: string, hist: seq<Return>,
      t: Timed, track: Track, calls: seq<CallRecord>, whole: bool, o: Outcome)
    requires OnTrack(track, t) && CallsAhead(track, t.s.pos, calls, whole)
    requires Made(c, policy, input, hist, calls, whole) && (whole ==> Ends(c, input, hist, calls, o))
    requires
      var end := TimedWorker(c, k, policy, input, hist, t).state.s.log;
      end <= track.log && (c.replay ==> t.s.log == track.log)
    ensures
      var r := TimedWorker(c, k, policy, input, hist, t);
      && Follows(track, t, r.state) && Arrives(track, r, t.s.pos, calls, whole, o)
      && (r.TimedFinished? ==> OnTrack(track, r.state))
    decreases |t.s.log| - t.s.pos + t.s.budget
  {
    hide TimedTask, TimedWorker, OnTrack, Follows, CallsAhead, CallAhead, Comes, Made, Effective, Written, Advances;
    TrackAhead(track, t);
    if calls == [] {
      if whole {
        WorkerFinishes(c, k, policy, input, hist, t);
        MovesOn(track, t, t);
      } else {
        NothingAhead(track, t, calls);
        WorkerAtEnd(c, k, policy, input, hist, t);
        StillFollows(track, t, TimedWorker(c, k, policy, input, hist, t).state);
      }
    } else {
      FirstCallAhead(c, policy, input, hist, track, t.s.pos, calls, whole);
      var asked := c.program(input, hist);
      var p := Effective(asked.policy, policy);
      var r := TimedWorker(c, k, policy, input, hist, t);
      var u := TimedTask(c, k, p, asked.task, asked.input, 1, t);
      WorkerGoesOn(c, k, policy, input, hist, t);
      TaskFollows(c, k, p, asked.task, asked.input, 1, t, track, calls[0].chapters, whole || |calls| > 1);
      if u.reply.Returned? {
        TrackAhead(track, u.state);
        if u.state.s.pos == |track.log| {
          WorkerAtEnd(c, k, policy, input, hist + [u.reply.ret], u.state);
          StillFollows(track, u.state, r.state);
        } else {
          ReplyMeans(track, u, t.s.pos, calls[0].chapters, whole || |calls| > 1);
          WorkerFollows(c, k, policy, input, hist + [u.reply.ret], u.state, track, calls[1..], whole, o);
        }
        FollowsJoins(track, t, u.state, r.state);
      }
    }
  }

  lemma {:induction false} NothingAhead(k: Track, t: Timed, calls: seq<CallRecord>)
    requires OnTrack(k, t) && CallsAhead(k, t.s.pos, calls, false) && calls == []
    ensures t.s.pos == |k.log| && t.s.log == k.log
  {
  }

  lemma {:induction false} ReplyMeans(k: Track, r: TimedTaskStep, pos: nat, rest: seq<Chapter>, whole: bool)
    requires Comes(k, r, pos, rest, whole) && r.reply.Returned? && r.state.s.pos != |k.log|
    ensures
      && whole && r.state.s.pos == pos + |rest| && rest != [] && rest[|rest| - 1].TaskOutcome?
      && r.reply.ret == AnswerOf(rest[|rest| - 1].outcome)
  {
  }

  // A visit, job attempt by job attempt.

  ghost predicate HistoryAhead(c: Config, policy: RunPolicy, input: string, attempt: nat, k: Track, pos: nat,
      h: seq<AttemptRecord>)
  {
    && pos <= |k.log| == |k.ps| && attempt >= 1 && policy.retry == k.job
    && k.log[pos..] == Flat(h) && k.ps[pos..] == Policies(h, policy.retry)
    && GoodHistory(h, policy.retry, HashOf(input), attempt) && ByProgram(c, policy, input, h, false)
  }

  /** The outcome of a job attempt stands next, and `later` is what follows it. */
  ghost predicate OutcomeAhead(c: Config, policy: RunPolicy, input: string, attempt: nat, k: Track, pos: nat,
      o: Outcome, later: seq<AttemptRecord>)
  {
    && pos < |k.log| == |k.ps| && attempt >= 1 && policy.retry == k.job
    && k.log[pos] == JobOutcome(HashOf(input), attempt, o) && k.ps[pos] == policy.retry
    && HistoryAhead(c, policy, input, attempt + 1, k, pos + 1, later)
  }

  lemma {:induction false} TailAhead<T>(whole: seq<T>, pos: nat, rest: seq<T>, n: nat)
    requires pos <= |whole| && whole[pos..] == rest && n <= |rest|
    ensures pos + n <= |whole| && whole[pos..pos + n] == rest[..n] && whole[pos + n..] == rest[n..]
    ensures n < |rest| ==> whole[pos + n] == rest[n]
  {
    assert whole[pos..pos + n] == whole[pos..][..n] && whole[pos + n..] == whole[pos..][n..];
  }

  lemma {:induction false} FirstCallsAhead(c: Config, policy: RunPolicy, input: string, attempt: nat, k: Track,
      pos: nat, h: seq<AttemptRecord>)
    requires HistoryAhead(c, policy, input, attempt, k, pos, h) && h != []
    ensures CallsAhead(k, pos, h[0].calls, h[0].outcome.Some?)
    ensures pos < |k.log| && k.log[pos].JobOutcome? ==> h[0].outcome.Some? && Written(h[0].calls) == []
  {
    hide GoodHistory, ByProgram, CallPolicies, Written;
    var p, hash := policy.retry, HashOf(input);
    FirstOutcome(h, p, hash, attempt);
    FirstPolicies(h, p, hash, attempt);
    FirstAreTasks(c, policy, input, h, attempt, false);
    TailAhead(k.log, pos, Flat(h), |Written(h[0].calls)|);
    TailAhead(k.ps, pos, Policies(h, p), |Written(h[0].calls)|);
    TailAhead(k.log, pos, Flat(h), 0);
  }

  lemma {:induction false} FirstOutcomeAhead(c: Config, policy: RunPolicy, input: string, attempt: nat, k: Track,
      pos: nat, h: seq<AttemptRecord>)
    requires HistoryAhead(c, policy, input, attempt, k, pos, h) && h != [] && h[0].outcome.Some?
    ensures h[0].outcome.value.JobOutcome?
    ensures OutcomeAhead(c, policy, input, attempt, k, pos + |Written(h[0].calls)|, h[0].outcome.value.outcome, h[1..])
  {
    hide GoodHistory, ByProgram, CallPolicies, Written;
    var p, hash := policy.retry, HashOf(input);
    var n := |Written(h[0].calls)|;
    FirstOutcome(h, p, hash, attempt);
    FirstPolicies(h, p, hash, attempt);
    FirstIsMade(c, policy, input, h, p, hash, attempt);
    LaterAttempts(c, policy, input, h, attempt, false);
    TailAhead(k.log, pos, Flat(h), n);
    TailAhead(k.ps, pos, Policies(h, p), n);
    TailAhead(k.log, pos, Flat(h), n + 1);
    TailAhead(k.ps, pos, Policies(h, p), n + 1);
  }

  lemma {:induction false} FirstAttemptAhead(c: Config, policy: RunPolicy, input: string, attempt: nat, k: Track,
      pos: nat, h: seq<AttemptRecord>)
    requires HistoryAhead(c, policy, input, attempt, k, pos, h) && pos < |k.log|
    ensures h != []
    ensures
      var calls, out := h[0].calls, h[0].outcome;
      && CallsAhead(k, pos, calls, out.Some?) && Made(c, policy, input, [], calls, out.Some?)
      && (out.Some? ==>
            && out.value.JobOutcome? && Ends(c, input, [], calls, out.value.outcome)
            && OutcomeAhead(c, policy, input, attempt, k, pos + |Written(calls)|, out.value.outcome, h[1..]))
      && (k.log[pos].JobOutcome? ==> out.Some? && Written(calls) == [])
  {
    hide GoodHistory, ByProgram, CallPolicies, Written, CallsAhead, OutcomeAhead, Made, Ends;
    assert k.log[pos..] == Flat(h);
    FirstCallsAhead(c, policy, input, attempt, k, pos, h);
    FirstIsMade(c, policy, input, h, policy.retry, HashOf(input), attempt);
    if h[0].outcome.Some? { FirstOutcomeAhead(c, policy, input, attempt, k, pos, h); }
  }

  lemma {:induction false} FirstIsMade(c: Config, policy: RunPolicy, input: string, h: seq<AttemptRecord>,
      p: RetryPolicy, hash: string, n: nat)
    requires GoodHistory(h, p, hash, n) && ByProgram(c, policy, input, h, false) && h != []
    ensures Made(c, policy, input, [], h[0].calls, h[0].outcome.Some?)
    ensures h[0].outcome.Some? ==>
      var ch := h[0].outcome.value;
      ch == JobOutcome(hash, n, ch.outcome) && Ends(c, input, [], h[0].calls, ch.outcome)
  {
  }

  lemma {:induction false} JobFollows(c: Config, k: Course, policy: RunPolicy, input: string, attempt: nat, t: Timed,
      track: Track, h: seq<AttemptRecord>)
    requires OnTrack(track, t) && HistoryAhead(c, policy, input, attempt, track, t.s.pos, h)
    requires
      var end := TimedJob(c, k, policy, input, attempt, t).state.s.log;
      end <= track.log && (c.replay ==> t.s.log == track.log)
    ensures Follows(track, t, TimedJob(c, k, policy, input, attempt, t).state)
    decreases |t.s.log| - t.s.pos, AttemptsLeft(policy.retry, attempt), 2
  {
    hide OnTrack, Follows, HistoryAhead, OutcomeAhead, CallsAhead, Made, Ends, Written, TimedWorker, TimedSettle,
      TimedCached, IsRetryable, Advances;
    TrackAhead(track, t);
    var r := TimedJob(c, k, policy, input, attempt, t);
    if t.s.pos == |track.log| {
      JobAtEnd(c, k, policy, input, attempt, t);
      StillFollows(track, t, r.state);
    } else {
      FirstAttemptAhead(c, policy, input, attempt, track, t.s.pos, h);
      if t.s.pos < |t.s.log| && t.s.log[t.s.pos].JobOutcome? {
        CachedFollows(c, k, policy, input, attempt, t, track, h[0].outcome.value.outcome, h[1..]);
      } else {
        var whole := h[0].outcome.Some?;
        var o := if whole then h[0].outcome.value.outcome else Ok("");
        var w := TimedWorker(c, k, policy, input, [], t);
        JobGoesOn(c, k, policy, input, attempt, t);
        WorkerFollows(c, k, policy, input, [], t, track, h[0].calls, whole, o);
        if w.TimedFinished? {
          TrackAhead(track, w.state);
          if w.state.s.pos == |track.log| {
            SettleAtEnd(c, k, policy, input, attempt, w.result, w.state);
            StillFollows(track, w.state, r.state);
          } else {
            SettleFollows(c, k, policy, input, attempt, w.result, w.state, track, o, h[1..]);
          }
          FollowsJoins(track, t, w.state, r.state);
        }
      }
    }
  }

  lemma {:induction false} JobGoesOn(c: Config, k: Course, policy: RunPolicy, input: string, attempt: nat, t: Timed)
    requires Sane(t) && HeldBehind(t) && !(t.s.pos < |t.s.log| && t.s.log[t.s.pos].JobOutcome?)
    ensures
      var w := TimedWorker(c, k, policy, input, [], t);
      var r := TimedJob(c, k, policy, input, attempt, t);
      && w.state.s.log <= r.state.s.log && (c.replay ==> w.state.s.log == t.s.log)
      && 0 <= |w.state.s.log| - w.state.s.pos <= |t.s.log| - t.s.pos
      && (w.TimedStopped? ==> r == TimedVisit(w.stop, w.state))
      && (w.TimedFinished? ==> r == TimedSettle(c, k, policy, input, attempt, w.result, w.state))
  {
    hide TimedWorker, TimedSettle;
  }

  lemma {:induction false} SettleFollows(c: Config, k: Course, policy: RunPolicy, input: string, attempt: nat,
      result: JobResult, t: Timed, track: Track, o: Outcome, later: seq<AttemptRecord>)
    requires OnTrack(track, t) && OutcomeAhead(c, policy, input, attempt, track, t.s.pos, o, later)
    requires !result.Nothing? && Recorded(result) == o
    requires
      var end := TimedSettle(c, k, policy, input, attempt, result, t).state.s.log;
      end <= track.log && (c.replay ==> t.s.log == track.log)
    ensures Follows(track, t, TimedSettle(c, k, policy, input, attempt, result, t).state)
    decreases |t.s.log| - t.s.pos, AttemptsLeft(policy.retry, attempt), 1
  {
    hide OnTrack, Follows, HistoryAhead, TimedJob, TimedCached, Pass, IsRetryable, ComputeBackoff;
    TrackAhead(track, t);
    var r := TimedSettle(c, k, policy, input, attempt, result, t);
    if t.s.pos < |t.s.log| {
      CachedFollows(c, k, policy, input, attempt, t, track, o, later);
    } else if c.replay || t.s.budget == 0 {
      MovesOn(track, t, r.state);
    } else {
      var ch := JobOutcome(HashOf(input), attempt, o);
      var u := Stamped(k, t, policy.retry, ch);
      assert t.(s := t.s.(ran := t.s.ran)) == t;
      WritesOn(k, track, t, t.s.ran, policy.retry, ch);
      var verdict := JudgeJob(policy.retry, attempt, o);
      if verdict.RetryAs? {
        var pass := Pass(k, false, policy.retry, attempt, u.s.pos, u.now, None);
        PassesWhenDue(k, false, policy.retry, attempt, u.s.pos, u.now, None);
        TrackAhead(track, u);
        if pass.Some? {
          var v := u.(now := pass.value);
          MovesOn(track, u, v);
          JobFollows(c, k, policy, input, attempt + 1, v, track, later);
          FollowsJoins(track, u, v, r.state);
        } else {
          HoldsOn(track, u, r.state, u.s.pos, policy.retry);
        }
        FollowsJoins(track, t, u, r.state);
      }
    }
  }

  lemma {:induction false} CachedFollows(c: Config, k: Course, policy: RunPolicy, input: string, attempt: nat, t: Timed,
      track: Track, o: Outcome, later: seq<AttemptRecord>)
    requires OnTrack(track, t) && OutcomeAhead(c, policy, input, attempt, track, t.s.pos, o, later)
    requires t.s.pos < |t.s.log|
    requires
      var end := TimedCached(c, k, policy, input, t).state.s.log;
      end <= track.log && (c.replay ==> t.s.log == track.log)
    ensures Follows(track, t, TimedCached(c, k, policy, input, t).state)
    decreases |t.s.log| - t.s.pos, 0, 0
  {
    hide OnTrack, Follows, HistoryAhead, TimedJob, Pass, IsRetryable, ComputeBackoff, Advances;
    TrackAhead(track, t);
    var r := TimedCached(c, k, policy, input, t);
    JobReaderAgreesWithWriter(policy.retry, input, attempt, o);
    var u := t.(s := t.s.(pos := t.s.pos + 1));
    var verdict := JudgeJob(policy.retry, attempt, o);
    if verdict.RetryAs? {
      var created := Some(t.stamps[t.s.pos].created);
      var pass := Pass(k, c.replay, policy.retry, attempt, u.s.pos, t.now, created);
      PassesWhenDue(k, c.replay, policy.retry, attempt, u.s.pos, t.now, created);
      if pass.Some? {
        var v := u.(now := pass.value);
        MovesOn(track, t, v);
        JobFollows(c, k, policy, input, attempt + 1, v, track, later);
        FollowsJoins(track, t, v, r.state);
      } else {
        if u.s.pos < track.from { AnsweredIsOver(k, c.replay, track, t, policy.retry, attempt); }
        HoldsOn(track, t, r.state, u.s.pos, policy.retry);
      }
    } else {
      MovesOn(track, t, r.state);
    }
  }
}
