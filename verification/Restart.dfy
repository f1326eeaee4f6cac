/**
 Restarting a job (pkg/jobdb/runtime/sqlite/runtime.go:108-250): the new job's log is the
 prior job's log up to `LastStepToKeep`, inherited through the chapter store, and the same
 deterministic worker carries on from there.
 */
module Restart {
  import opened Retry
  import opened Chapters
  import opened Runner
  import opened Resume
  import opened Crash
  import opened History

  datatype Refusal = NegativeStep | NoStartChapter | NoNextChapter | CutsIntoRetryChain

  /** The attempt number stored in a chapter; a start chapter stores none. */
  function StoredAttempt(ch: Chapter): int {
    if ch.JobStart? then 0 else ch.attempt
  }

  /** The checks a restart request passes before anything is cloned. */
  function Refused(log: seq<Chapter>, lastStepToKeep: int): Option<Refusal> {
    if lastStepToKeep < 0 then Some(NegativeStep)
    else if log == [] then Some(NoStartChapter)
    else if lastStepToKeep + 1 >= |log| then Some(NoNextChapter)
    else if (if StoredAttempt(log[lastStepToKeep + 1]) == 0 then 1 else StoredAttempt(log[lastStepToKeep + 1])) > 1
      then Some(CutsIntoRetryChain)
    else None
  }

  /** The reasons for a refusal, in the order they are looked at; a next chapter without a number
      counts as a first attempt. */
  lemma RefusalReasons(log: seq<Chapter>, k: int)
    ensures Refused(log, k) == Some(NegativeStep) <==> k < 0
    ensures Refused(log, k) == Some(NoStartChapter) <==> k >= 0 && |log| == 0
    ensures Refused(log, k) == Some(NoNextChapter) <==> k >= 0 && 0 < |log| <= k + 1
    ensures Refused(log, k) == Some(CutsIntoRetryChain) <==>
      0 <= k < |log| - 1 && !log[k + 1].JobStart? && log[k + 1].attempt > 1
  {
  }

  // What a cut keeps.

  function CutCalls(calls: seq<CallRecord>, m: nat): seq<CallRecord> {
    if calls == [] || m < |calls[0].chapters| then [] else [calls[0]] + CutCalls(calls[1..], m - |calls[0].chapters|)
  }

  function CutHistory(h: seq<AttemptRecord>, m: nat): seq<AttemptRecord> {
    if h == [] then []
    else if m < |OfAttempt(h[0])| then [AttemptRecord(CutCalls(h[0].calls, m), None)]
    else [h[0]] + CutHistory(h[1..], m - |OfAttempt(h[0])|)
  }

  /** A history of the program in which every call has run its retry chain to the end. */
  ghost predicate WholeHistory(c: Config, policy: RunPolicy, input: string, h: seq<AttemptRecord>, n: nat) {
    GoodHistory(h, policy.retry, HashOf(input), n) && ByProgram(c, policy, input, h, true)
  }

  /** The log holds only whole retry chains of the program's own calls. */
  ghost predicate IsWhole(c: Config, start: Chapter, log: seq<Chapter>)
    requires start.JobStart?
  {
    exists h: seq<AttemptRecord> :: log == [start] + Flat(h) && WholeHistory(c, JobPolicy(c, start), start.input, h, 1)
  }

  /** A retry of a task: the call it belongs to has begun before it. */
  predicate IsRetry(ch: Chapter) {
    ch.TaskOutcome? && ch.attempt > 1
  }

  lemma WrittenFirst(calls: seq<CallRecord>, m: nat)
    requires calls != [] && |calls[0].chapters| <= m <= |Written(calls)|
    ensures
      var k := |calls[0].chapters|;
      && m - k <= |Written(calls[1..])|
      && (m < |Written(calls)| ==> Written(calls)[m] == Written(calls[1..])[m - k])
      && Written(calls)[..m] == calls[0].chapters + Written(calls[1..])[..m - k]
  {
  }

  lemma {:induction false} CutsWholeCalls(c: Config, policy: RunPolicy, input: string, hist: seq<Return>,
      calls: seq<CallRecord>, whole: bool, m: nat)
    requires Made(c, policy, input, hist, calls, whole) && m <= |Written(calls)|
    requires m < |Written(calls)| ==> !IsRetry(Written(calls)[m])
    requires m == |Written(calls)| ==> whole
    ensures Written(CutCalls(calls, m)) == Written(calls)[..m] && Made(c, policy, input, hist, CutCalls(calls, m), true)
    decreases |calls|
  {
    if calls == [] {
    } else if m < |calls[0].chapters| {
      assert Written(calls)[m] == calls[0].chapters[m];
      assert m == 0;
    } else {
      var call, rest := calls[0], calls[1..];
      var cut := CutCalls(rest, m - |call.chapters|);
      WrittenFirst(calls, m);
      if |calls| == 1 { OneCall(calls); }
      CutsWholeCalls(c, policy, input, hist + [Answer(call)], rest, whole, m - |call.chapters|);
      MadeGrows(c, policy, input, hist, call, cut, true);
      assert ([call] + cut)[1..] == cut;
    }
  }

  lemma OneCall(calls: seq<CallRecord>)
    requires |calls| == 1
    ensures Written(calls) == calls[0].chapters
  {
    assert calls[1..] == [];
  }

  lemma FirstIsWhole(c: Config, policy: RunPolicy, input: string, calls: seq<CallRecord>, n: nat)
    requires Made(c, policy, input, [], calls, true)
    ensures WholeHistory(c, policy, input, [AttemptRecord(calls, None)], n)
  {
    MadeIsGood(c, policy, input, [], calls, true);
    assert GoodCalls(calls, false);
  }

  lemma {:induction false} MadeIsGood(c: Config, policy: RunPolicy, input: string, hist: seq<Return>,
      calls: seq<CallRecord>, whole: bool)
    requires Made(c, policy, input, hist, calls, whole)
    ensures GoodCalls(calls, whole)
    decreases |calls|
  {
    if calls == [] {
    } else {
      MadeIsGood(c, policy, input, hist + [Answer(calls[0])], calls[1..], whole);
      CallsGrow(calls[0], calls[1..], whole);
      assert [calls[0]] + calls[1..] == calls;
    }
  }

  lemma CutsInFirst(c: Config, policy: RunPolicy, input: string, h: seq<AttemptRecord>, n: nat, m: nat)
    requires GoodHistory(h, policy.retry, HashOf(input), n) && ByProgram(c, policy, input, h, false)
    requires h != [] && m < |OfAttempt(h[0])| && !IsRetry(Flat(h)[m])
    ensures Flat(CutHistory(h, m)) == Flat(h)[..m] && WholeHistory(c, policy, input, CutHistory(h, m), n)
  {
    hide GoodHistory, WholeHistory;
    var a := h[0];
    assert Flat(h)[m] == OfAttempt(a)[m];
    assert m < |Written(a.calls)| ==> OfAttempt(a)[m] == Written(a.calls)[m];
    CutsWholeCalls(c, policy, input, [], a.calls, a.outcome.Some?, m);
    hide Written;
    var cut := AttemptRecord(CutCalls(a.calls, m), None);
    assert OfAttempt(cut) == Written(cut.calls);
    assert CutHistory(h, m) == [cut] && [cut][1..] == [];
    assert Flat([cut]) == OfAttempt(cut);
    assert Flat(h)[..m] == Written(a.calls)[..m];
    FirstIsWhole(c, policy, input, cut.calls, n);
  }

  lemma CutsLater(h: seq<AttemptRecord>, p: RetryPolicy, hash: string, n: nat, m: nat)
    requires GoodHistory(h, p, hash, n) && h != [] && |OfAttempt(h[0])| <= m < |Flat(h)|
    ensures h[0].outcome.Some? && h[1..] != [] && GoodHistory(h[1..], p, hash, n + 1)
    ensures m - |OfAttempt(h[0])| < |Flat(h[1..])| && Flat(h)[m] == Flat(h[1..])[m - |OfAttempt(h[0])|]
    ensures Flat(h)[..m] == OfAttempt(h[0]) + Flat(h[1..])[..m - |OfAttempt(h[0])|]
  {
    if h[0].outcome.None? || h[1..] == [] {
      OnlyOneAttempt(h, p, hash, n);
      assert false;
    }
    AttemptThenRest(h, m);
  }

  lemma AttemptThenRest(h: seq<AttemptRecord>, m: nat)
    requires h != [] && |OfAttempt(h[0])| <= m < |Flat(h)|
    ensures m - |OfAttempt(h[0])| < |Flat(h[1..])| && Flat(h)[m] == Flat(h[1..])[m - |OfAttempt(h[0])|]
    ensures Flat(h)[..m] == OfAttempt(h[0]) + Flat(h[1..])[..m - |OfAttempt(h[0])|]
  {
    hide OfAttempt;
    var first, rest := OfAttempt(h[0]), Flat(h[1..]);
    assert Flat(h) == first + rest;
  }

  lemma OnlyOneAttempt(h: seq<AttemptRecord>, p: RetryPolicy, hash: string, n: nat)
    requires GoodHistory(h, p, hash, n) && h != [] && (h[0].outcome.None? || h[1..] == [])
    ensures Flat(h) == OfAttempt(h[0])
  {
    assert h[1..] == [];
  }

  lemma {:induction false} CutsWholeHistory(c: Config, policy: RunPolicy, input: string, h: seq<AttemptRecord>,
      n: nat, m: nat)
    requires GoodHistory(h, policy.retry, HashOf(input), n) && ByProgram(c, policy, input, h, false)
    requires m < |Flat(h)| && !IsRetry(Flat(h)[m])
    ensures Flat(CutHistory(h, m)) == Flat(h)[..m] && WholeHistory(c, policy, input, CutHistory(h, m), n)
    decreases |h|
  {
    var a, rest := h[0], h[1..];
    if m < |OfAttempt(a)| {
      CutsInFirst(c, policy, input, h, n, m);
    } else {
      CutsLater(h, policy.retry, HashOf(input), n, m);
      assert ByProgram(c, policy, input, rest, false);
      CutsWholeHistory(c, policy, input, rest, n + 1, m - |OfAttempt(a)|);
      var cut := CutHistory(rest, m - |OfAttempt(a)|);
      WholeGrows(c, policy, input, a, cut, n);
      assert CutHistory(h, m) == [a] + cut;
      assert ([a] + cut)[1..] == cut;
    }
  }

  lemma WholeGrows(c: Config, policy: RunPolicy, input: string, a: AttemptRecord, rest: seq<AttemptRecord>, n: nat)
    requires WholeHistory(c, policy, input, rest, n + 1) && a.outcome.Some? && GoodCalls(a.calls, true)
    requires a.outcome.value.JobOutcome? && a.outcome.value.hash == HashOf(input) && a.outcome.value.attempt == n
    requires JudgeJob(policy.retry, n, a.outcome.value.outcome) == RetryAs(n + 1)
    requires Made(c, policy, input, [], a.calls, true) && Ends(c, input, [], a.calls, a.outcome.value.outcome)
    ensures WholeHistory(c, policy, input, [a] + rest, n)
  {
    assert ([a] + rest)[1..] == rest;
    assert ByProgram(c, policy, input, [a], true);
    ByProgramGrows(c, policy, input, a, rest, true);
  }

  // A cut inside a retry chain leaves no whole history, whichever way the rest is read.

  lemma {:induction false} WrittenAreTasks(c: Config, policy: RunPolicy, input: string, hist: seq<Return>,
      calls: seq<CallRecord>, whole: bool, i: nat)
    requires Made(c, policy, input, hist, calls, whole) && i < |Written(calls)|
    ensures Written(calls)[i].TaskOutcome? && Written(calls)[i].attempt >= 1
    decreases |calls|
  {
    if i < |calls[0].chapters| {
      assert Written(calls)[i] == calls[0].chapters[i];
    } else {
      WrittenFirst(calls, i);
      WrittenAreTasks(c, policy, input, hist + [Answer(calls[0])], calls[1..], whole, i - |calls[0].chapters|);
    }
  }

  /** Two chains of one call, one of them whole, that agree as far as both go: the whole one is not
      shorter, and is the other if that is whole too. */
  lemma SameChain(p: RetryPolicy, a: seq<Chapter>, b: seq<Chapter>, wholeA: bool)
    requires Chain(p, 1, a, wholeA) && Chain(p, 1, b, true)
    requires forall i :: 0 <= i < |a| && i < |b| ==> a[i] == b[i]
    ensures |b| >= |a| && (wholeA ==> b == a)
  {
    assert Judge(p, 1 + |b| - 1, b[|b| - 1].outcome).Reply?;
    assert |b| <= |a| ==> a[|b| - 1] == b[|b| - 1];
    assert |a| <= |b| ==> b[|a| - 1] == a[|a| - 1];
  }

  lemma FirstOfCut(calls: seq<CallRecord>, other: seq<CallRecord>, m: nat)
    requires calls != [] && other != [] && m < |Written(calls)| && Written(other) == Written(calls)[..m]
    ensures |other[0].chapters| <= m
    ensures forall i :: 0 <= i < |other[0].chapters| && i < |calls[0].chapters| ==>
      calls[0].chapters[i] == other[0].chapters[i]
  {
    var a, b := calls[0].chapters, other[0].chapters;
    forall i | 0 <= i < |b| && i < |a| ensures a[i] == b[i] {
      assert Written(calls)[i] == a[i] && Written(other)[i] == b[i];
    }
  }

  lemma RestOfCut(calls: seq<CallRecord>, other: seq<CallRecord>, m: nat)
    requires calls != [] && other != [] && m < |Written(calls)| && Written(other) == Written(calls)[..m]
    requires other[0].chapters == calls[0].chapters
    ensures
      var k := |calls[0].chapters|;
      && k <= m && m - k < |Written(calls[1..])|
      && Written(other[1..]) == Written(calls[1..])[..m - k] && Written(calls[1..])[m - k] == Written(calls)[m]
  {
    var a := calls[0].chapters;
    WrittenFirst(calls, m);
    assert Written(other) == a + Written(other[1..]);
    assert Written(other[1..]) == Written(other)[|a|..];
    assert Written(calls[1..])[..m - |a|] == Written(calls)[..m][|a|..];
  }

  lemma {:induction false} NoWholeCallsBeforeARetry(c: Config, policy: RunPolicy, input: string, hist: seq<Return>,
      calls: seq<CallRecord>, whole: bool, other: seq<CallRecord>, m: nat)
    requires Made(c, policy, input, hist, calls, whole) && Made(c, policy, input, hist, other, true)
    requires m < |Written(calls)| && IsRetry(Written(calls)[m])
    ensures Written(other) != Written(calls)[..m]
    decreases |calls|
  {
    var a := calls[0].chapters;
    if other == [] {
      assert Written(calls)[0] == a[0];
    } else if Written(other) == Written(calls)[..m] {
      FirstOfCut(calls, other, m);
      SameChain(calls[0].policy, a, other[0].chapters, whole || |calls| > 1);
      if |calls| == 1 { OneCall(calls); }
      RestOfCut(calls, other, m);
      NoWholeCallsBeforeARetry(c, policy, input, hist + [Answer(calls[0])], calls[1..], whole, other[1..], m - |a|);
    }
  }

  /** The chapters before the first job outcome of a history are its first attempt's calls. */
  lemma FirstOutcome(h: seq<AttemptRecord>, p: RetryPolicy, hash: string, n: nat)
    requires GoodHistory(h, p, hash, n) && h != []
    ensures
      var k := |Written(h[0].calls)|;
      && k <= |Flat(h)| && Flat(h)[..k] == Written(h[0].calls)
      && (h[0].outcome.None? ==> Flat(h) == Written(h[0].calls))
      && (h[0].outcome.Some? ==>
            && k < |Flat(h)| && Flat(h)[k] == h[0].outcome.value && Flat(h)[k].JobOutcome? && Flat(h)[k].attempt == n
            && Flat(h)[k + 1..] == Flat(h[1..]))
  {
    if h[0].outcome.None? {
      OnlyOneAttempt(h, p, hash, n);
      assert OfAttempt(h[0]) == Written(h[0].calls);
    } else {
      assert Flat(h) == Written(h[0].calls) + [h[0].outcome.value] + Flat(h[1..]);
    }
  }

  lemma FirstAreTasks(c: Config, policy: RunPolicy, input: string, h: seq<AttemptRecord>, n: nat, whole: bool)
    requires GoodHistory(h, policy.retry, HashOf(input), n) && ByProgram(c, policy, input, h, whole) && h != []
    ensures |Written(h[0].calls)| <= |Flat(h)|
    ensures forall i :: 0 <= i < |Written(h[0].calls)| ==> Flat(h)[i].TaskOutcome? && Flat(h)[i].attempt >= 1
  {
    FirstOutcome(h, policy.retry, HashOf(input), n);
    var calls := h[0].calls;
    forall i | 0 <= i < |Written(calls)| ensures Flat(h)[i].TaskOutcome? && Flat(h)[i].attempt >= 1 {
      WrittenAreTasks(c, policy, input, [], calls, whole || h[0].outcome.Some?, i);
      assert Flat(h)[..|Written(calls)|][i] == Flat(h)[i];
    }
  }

  lemma LaterAttempts(c: Config, policy: RunPolicy, input: string, h: seq<AttemptRecord>, n: nat, whole: bool)
    requires GoodHistory(h, policy.retry, HashOf(input), n) && ByProgram(c, policy, input, h, whole)
    requires h != [] && h[0].outcome.Some?
    ensures GoodHistory(h[1..], policy.retry, HashOf(input), n + 1) && ByProgram(c, policy, input, h[1..], whole)
  {
  }

  /** A shortened history that holds a job outcome begins with an attempt of the same length. */
  lemma SameFirstAttempt(c: Config, policy: RunPolicy, input: string, h: seq<AttemptRecord>, other: seq<AttemptRecord>,
      n: nat, m: nat)
    requires GoodHistory(h, policy.retry, HashOf(input), n) && ByProgram(c, policy, input, h, false)
    requires GoodHistory(other, policy.retry, HashOf(input), n) && ByProgram(c, policy, input, other, true)
    requires h != [] && h[0].outcome.Some? && |Written(h[0].calls)| < m <= |Flat(h)| && Flat(other) == Flat(h)[..m]
    ensures other != [] && other[0].outcome.Some? && |Written(other[0].calls)| == |Written(h[0].calls)|
  {
    hide GoodHistory, ByProgram;
    FirstOutcome(h, policy.retry, HashOf(input), n);
    FirstAreTasks(c, policy, input, h, n, false);
    FirstOutcome(other, policy.retry, HashOf(input), n);
    FirstAreTasks(c, policy, input, other, n, true);
    assert forall i :: 0 <= i < m ==> Flat(other)[i] == Flat(h)[i];
  }

  lemma RestOfHistory(flat: seq<Chapter>, other: seq<Chapter>, m: nat, k: nat)
    requires k < m < |flat| && other == flat[..m]
    ensures other[k + 1..] == flat[k + 1..][..m - k - 1] && flat[k + 1..][m - k - 1] == flat[m]
  {
  }

  lemma {:induction false} NoWholeHistoryBeforeARetry(c: Config, policy: RunPolicy, input: string,
      h: seq<AttemptRecord>, other: seq<AttemptRecord>, n: nat, m: nat)
    requires GoodHistory(h, policy.retry, HashOf(input), n) && ByProgram(c, policy, input, h, false)
    requires WholeHistory(c, policy, input, other, n)
    requires m < |Flat(h)| && IsRetry(Flat(h)[m])
    ensures Flat(other) != Flat(h)[..m]
    decreases |h|
  {
    hide GoodHistory, ByProgram, Written;
    var p, hash := policy.retry, HashOf(input);
    FirstOutcome(h, p, hash, n);
    var k := |Written(h[0].calls)|;
    if m < k {
      InFirstAttempt(c, policy, input, h, other, n, m);
    } else if Flat(other) == Flat(h)[..m] {
      SameFirstAttempt(c, policy, input, h, other, n, m);
      FirstOutcome(other, p, hash, n);
      RestOfHistory(Flat(h), Flat(other), m, k);
      LaterAttempts(c, policy, input, h, n, false);
      LaterAttempts(c, policy, input, other, n, true);
      NoWholeHistoryBeforeARetry(c, policy, input, h[1..], other[1..], n + 1, m - k - 1);
    }
  }

  lemma InFirstAttempt(c: Config, policy: RunPolicy, input: string, h: seq<AttemptRecord>, other: seq<AttemptRecord>,
      n: nat, m: nat)
    requires GoodHistory(h, policy.retry, HashOf(input), n) && ByProgram(c, policy, input, h, false)
    requires WholeHistory(c, policy, input, other, n)
    requires h != [] && m < |Written(h[0].calls)| && m < |Flat(h)| && IsRetry(Flat(h)[m])
    ensures Flat(other) != Flat(h)[..m]
  {
    var calls := h[0].calls;
    FirstOutcome(h, policy.retry, HashOf(input), n);
    FirstAreTasks(c, policy, input, h, n, false);
    assert Flat(h)[..|Written(calls)|][m] == Flat(h)[m];
    assert Flat(h)[..m] == Written(calls)[..m];
    var others := if other == [] then [] else other[0].calls;
    NoWholeCallsBeforeARetry(c, policy, input, [], calls, h[0].outcome.Some?, others, m);
    if other != [] { FirstOutcome(other, policy.retry, HashOf(input), n); }
    assert forall i :: 0 <= i < m ==> Flat(h)[..m][i].TaskOutcome?;
  }

  /** On a log of the program's own making, a cut leaves whole retry chains exactly when the next
      chapter is not a retry of a task. */
  lemma CutIsWholeUnlessBeforeARetry(c: Config, start: Chapter, log: seq<Chapter>, h: seq<AttemptRecord>, k: nat)
    requires start.JobStart? && log == [start] + Flat(h) && k + 1 < |log|
    requires GoodHistory(h, JobPolicy(c, start).retry, HashOf(start.input), 1)
    requires ByProgram(c, JobPolicy(c, start), start.input, h, false)
    ensures IsWhole(c, start, log[..k + 1]) <==> !IsRetry(log[k + 1])
  {
    var policy, input := JobPolicy(c, start), start.input;
    assert Flat(h)[k] == log[k + 1] && log[..k + 1] == [start] + Flat(h)[..k];
    if !IsRetry(log[k + 1]) {
      CutsWholeHistory(c, policy, input, h, 1, k);
    } else if IsWhole(c, start, log[..k + 1]) {
      var other: seq<AttemptRecord> :|
        log[..k + 1] == [start] + Flat(other) && WholeHistory(c, policy, input, other, 1);
      assert ([start] + Flat(other))[1..] == Flat(other) && ([start] + Flat(h)[..k])[1..] == Flat(h)[..k];
      NoWholeHistoryBeforeARetry(c, policy, input, h, other, 1, k);
    }
  }

  /** Every chapter after the first is a numbered task outcome or job outcome. */
  lemma {:induction false} FlatIsNumbered(c: Config, policy: RunPolicy, input: string, h: seq<AttemptRecord>, n: nat,
      m: nat)
    requires GoodHistory(h, policy.retry, HashOf(input), n) && ByProgram(c, policy, input, h, false)
    requires m < |Flat(h)| && n >= 1
    ensures (Flat(h)[m].TaskOutcome? || Flat(h)[m].JobOutcome?) && Flat(h)[m].attempt >= 1
    decreases |h|
  {
    hide GoodHistory, ByProgram, Written;
    FirstOutcome(h, policy.retry, HashOf(input), n);
    FirstAreTasks(c, policy, input, h, n, false);
    var k := |Written(h[0].calls)|;
    if m > k {
      LaterAttempts(c, policy, input, h, n, false);
      assert Flat(h)[k + 1..][m - k - 1] == Flat(h)[m];
      FlatIsNumbered(c, policy, input, h[1..], n + 1, m - k - 1);
    }
  }

  /** A restart within a log that visits left, whatever their crashes, keeps only whole retry
      chains if and only if the next chapter is not a retry of a task.  Every restart that would
      cut a chain is refused; one that would not is refused if and only if the next chapter is the
      outcome of a later job attempt. */
  lemma RefusalIsExactButForLaterOutcomes(c: Config, plans: seq<Plan>, start: Chapter, k: nat)
    requires !c.replay && start.JobStart? && plans != []
    requires k + 1 < |LastVisit(c, plans, [start]).state.log|
    ensures
      var log := LastVisit(c, plans, [start]).state.log;
      && (IsWhole(c, start, log[..k + 1]) <==> !IsRetry(log[k + 1]))
      && (!IsWhole(c, start, log[..k + 1]) ==> Refused(log, k) == Some(CutsIntoRetryChain))
      && (IsWhole(c, start, log[..k + 1]) ==>
          (Refused(log, k).Some? <==> log[k + 1].JobOutcome? && log[k + 1].attempt > 1))
  {
    hide LastVisit, GoodHistory, ByProgram, IsWhole;
    LogGrammar(c, plans, start);
    var log := LastVisit(c, plans, [start]).state.log;
    var policy, hash := JobPolicy(c, start), HashOf(start.input);
    var h: seq<AttemptRecord> :|
      log == [start] + Flat(h) && GoodHistory(h, policy.retry, hash, 1) && h != []
        && ByProgram(c, policy, start.input, h, false);
    CutIsWholeUnlessBeforeARetry(c, start, log, h, k);
    assert Flat(h)[k] == log[k + 1];
    FlatIsNumbered(c, policy, start.input, h, 1, k);
  }

  /** A program that always fails, and a job that may try twice. */
  function Failing(): Program {
    (input, hist) => Finish(Failure(App("no")))
  }

  const TWICE := RunPolicy(RetryPolicy(0, 1.0, 0, 2, []), None, None)

  /** Such a refusal happens: after two failed job attempts a restart behind the first one keeps
      whole chains and is refused as cutting into a retry chain. */
  lemma WholeCutIsRefused()
    ensures exists c: Config, plans: seq<Plan>, start: Chapter, k: nat ::
      && !c.replay && start.JobStart? && plans != []
      && var log := LastVisit(c, plans, [start]).state.log;
         k + 1 < |log| && IsWhole(c, start, log[..k + 1]) && Refused(log, k) == Some(CutsIntoRetryChain)
  {
    var c := Config(Failing(), {}, TWICE, false);
    var start := JobStart("j", "i", Some(TWICE));
    var e := Env((n: nat) => Ok(""), (n: nat) => false);
    var plans := [Plan(e, 2)];
    assert plans[..0] == [];
    var first := JobOutcome(HashOf("i"), 1, Failed(App("no")));
    var second := JobOutcome(HashOf("i"), 2, Failed(App("no")));
    var policy := JobPolicy(c, start);
    assert policy.retry.maximumAttempts == 2 && policy.retry.nonRetryable == [];
    var s0 := State([start], 1, 2, []);
    var s1 := Write(s0, first);
    var s2 := Write(s1, second);
    FailsOnce(c, e, policy, "i", 1, s0);
    FailsOnce(c, e, policy, "i", 2, s1);
    assert JobLoop(c, e, policy, "i", 1, s0) == JobLoop(c, e, policy, "i", 2, s1);
    assert JobLoop(c, e, policy, "i", 1, s0).state == s2;
    assert LastVisit(c, plans, [start]).state.log == [start, first, second];
    RefusalIsExactButForLaterOutcomes(c, plans, start, 1);
  }

  /** One failing job attempt of such a program: its outcome, and the next attempt or the end. */
  lemma FailsOnce(c: Config, e: Env, policy: RunPolicy, input: string, attempt: nat, s: State)
    requires !c.replay && s.pos == |s.log| && s.budget > 0 && c.program(input, []) == Finish(Failure(App("no")))
    ensures
      var o := Failed(App("no"));
      var u := Write(s, JobOutcome(HashOf(input), attempt, o));
      JobLoop(c, e, policy, input, attempt, s) ==
        match JudgeJob(policy.retry, attempt, o)
        case Terminal(out) => Visit(Completed(out), u)
        case RetryAs(next) =>
          if e.waiting(u.pos) then Visit(Parked(u.pos), u) else JobLoop(c, e, policy, input, next, u)
  {
    SettleAgain(c, e, policy, input, attempt, Failure(App("no")), s);
  }

  /** Accepted restarts in particular. */
  lemma AcceptedCutKeepsWholeChains(c: Config, plans: seq<Plan>, start: Chapter, k: int)
    requires !c.replay && start.JobStart? && plans != []
    requires Refused(LastVisit(c, plans, [start]).state.log, k).None?
    ensures IsWhole(c, start, LastVisit(c, plans, [start]).state.log[..k + 1])
  {
    hide LastVisit, IsWhole;
    RefusalIsExactButForLaterOutcomes(c, plans, start, k);
  }

  // Where the restarted job carries on.

  /** The environment gives, below ordinal m, the task outcomes recorded in L, and never makes a
      visit wait up to m. */
  ghost predicate Agree(L: seq<Chapter>, e: Env, m: nat) {
    && (forall n: nat :: n < m && n < |L| && L[n].TaskOutcome? ==> e.outcome(n) == L[n].outcome)
    && (forall n: nat :: n <= m ==> !e.waiting(n))
  }

  ghost predicate SameStart(s1: State, s2: State, m: nat) {
    && s1.log == s2.log && s1.pos == |s1.log| && s2.pos == |s2.log|
    && |s1.log| <= m < |s2.log| + s2.budget
  }

  /** The same step of the same worker: only what a task worker returned may differ. */
  ghost predicate SameStep(a: Chapter, b: Chapter) {
    if a.TaskOutcome? then b.TaskOutcome? && b.task == a.task && b.hash == a.hash && b.attempt == a.attempt else b == a
  }

  ghost predicate PartAt(m: nat, log1: seq<Chapter>, log2: seq<Chapter>) {
    |log1| > m && |log2| > m && log1[..m] == log2[..m] && SameStep(log1[m], log2[m])
  }

  lemma PartsStay(m: nat, a: seq<Chapter>, a': seq<Chapter>, b: seq<Chapter>, b': seq<Chapter>)
    requires PartAt(m, a, b) && a <= a' && b <= b'
    ensures PartAt(m, a', b')
  {
    assert a'[..m] == a[..m] && b'[..m] == b[..m];
  }

  ghost predicate TaskParts(m: nat, r1: TaskStep, s2: State, r2: TaskStep) {
    if |r1.state.log| > m then PartAt(m, r1.state.log, r2.state.log)
    else r1.reply.Returned? ==> r2.reply == r1.reply && SameStart(r1.state, r2.state, m)
  }

  lemma {:induction false} TaskForks(c: Config, e1: Env, e2: Env, L: seq<Chapter>, m: nat, p: RetryPolicy,
      task: string, input: string, attempt: nat, s1: State, s2: State)
    requires !c.replay && Agree(L, e2, m) && SameStart(s1, s2, m)
    requires TaskLoop(c, e1, p, task, input, attempt, s1).state.log <= L
    ensures TaskParts(m, TaskLoop(c, e1, p, task, input, attempt, s1), s2, TaskLoop(c, e2, p, task, input, attempt, s2))
    decreases AttemptsLeft(p, attempt)
  {
    if task in c.local && s1.budget > 0 {
      var n := s1.pos;
      var ch1 := TaskOutcome(task, HashOf(input), attempt, e1.outcome(n));
      var ch2 := TaskOutcome(task, HashOf(input), attempt, e2.outcome(n));
      var u1, u2 := Write(s1.(ran := s1.ran + [n]), ch1), Write(s2.(ran := s2.ran + [n]), ch2);
      var r1, r2 := TaskLoop(c, e1, p, task, input, attempt, s1), TaskLoop(c, e2, p, task, input, attempt, s2);
      assert u1.log <= r1.state.log && u2.log <= r2.state.log;
      assert L[n] == u1.log[n] == ch1;
      if n == m {
        assert PartAt(m, u1.log, u2.log);
        PartsStay(m, u1.log, r1.state.log, u2.log, r2.state.log);
      } else {
        var verdict := Judge(p, attempt, e1.outcome(n));
        if verdict.Again? && !e1.waiting(u1.pos) {
          TaskForks(c, e1, e2, L, m, p, task, input, verdict.attempt, u1, u2);
        }
      }
    }
  }

  ghost predicate WorkerParts(m: nat, r1: WorkerStep, r2: WorkerStep) {
    if |r1.state.log| > m then PartAt(m, r1.state.log, r2.state.log)
    else r1.Finished? ==> r2.Finished? && r2.result == r1.result && SameStart(r1.state, r2.state, m)
  }

  lemma {:induction false} WorkerForks(c: Config, e1: Env, e2: Env, L: seq<Chapter>, m: nat, policy: RunPolicy,
      input: string, hist: seq<Return>, s1: State, s2: State)
    requires !c.replay && Agree(L, e2, m) && SameStart(s1, s2, m)
    requires WorkerLoop(c, e1, policy, input, hist, s1).state.log <= L
    ensures WorkerParts(m, WorkerLoop(c, e1, policy, input, hist, s1), WorkerLoop(c, e2, policy, input, hist, s2))
    decreases s1.budget
  {
    match c.program(input, hist)
    case Finish(_) =>
    case DoTask(over, task, taskInput) =>
      var p := Effective(over, policy);
      var t1, t2 := TaskLoop(c, e1, p, task, taskInput, 1, s1), TaskLoop(c, e2, p, task, taskInput, 1, s2);
      var r1, r2 := WorkerLoop(c, e1, policy, input, hist, s1), WorkerLoop(c, e2, policy, input, hist, s2);
      TaskForks(c, e1, e2, L, m, p, task, taskInput, 1, s1, s2);
      assert t1.state.log <= r1.state.log && t2.state.log <= r2.state.log;
      if |t1.state.log| > m {
        PartsStay(m, t1.state.log, r1.state.log, t2.state.log, r2.state.log);
      } else if t1.reply.Returned? {
        WorkerForks(c, e1, e2, L, m, policy, input, hist + [t1.reply.ret], t1.state, t2.state);
      }
  }

  lemma {:induction false} JobForks(c: Config, e1: Env, e2: Env, L: seq<Chapter>, m: nat, policy: RunPolicy,
      input: string, attempt: nat, s1: State, s2: State)
    requires !c.replay && Agree(L, e2, m) && SameStart(s1, s2, m)
    requires |JobLoop(c, e1, policy, input, attempt, s1).state.log| > m
    requires JobLoop(c, e1, policy, input, attempt, s1).state.log <= L
    ensures PartAt(m, JobLoop(c, e1, policy, input, attempt, s1).state.log,
                   JobLoop(c, e2, policy, input, attempt, s2).state.log)
    decreases s1.budget
  {
    var w1, w2 := WorkerLoop(c, e1, policy, input, [], s1), WorkerLoop(c, e2, policy, input, [], s2);
    var r1, r2 := JobLoop(c, e1, policy, input, attempt, s1), JobLoop(c, e2, policy, input, attempt, s2);
    WorkerForks(c, e1, e2, L, m, policy, input, [], s1, s2);
    assert w1.state.log <= r1.state.log && w2.state.log <= r2.state.log;
    if |w1.state.log| > m {
      PartsStay(m, w1.state.log, r1.state.log, w2.state.log, r2.state.log);
    } else {
      SettleForks(c, e1, e2, L, m, policy, input, attempt, w1.result, w1.state, w2.state);
    }
  }

  lemma {:induction false} SettleForks(c: Config, e1: Env, e2: Env, L: seq<Chapter>, m: nat, policy: RunPolicy,
      input: string, attempt: nat, result: JobResult, s1: State, s2: State)
    requires !c.replay && Agree(L, e2, m) && SameStart(s1, s2, m)
    requires |JobSettle(c, e1, policy, input, attempt, result, s1).state.log| > m
    requires JobSettle(c, e1, policy, input, attempt, result, s1).state.log <= L
    ensures PartAt(m, JobSettle(c, e1, policy, input, attempt, result, s1).state.log,
                   JobSettle(c, e2, policy, input, attempt, result, s2).state.log)
    decreases s1.budget, 0
  {
    var ch := JobOutcome(HashOf(input), attempt, Recorded(result));
    SettleAgain(c, e1, policy, input, attempt, result, s1);
    SettleAgain(c, e2, policy, input, attempt, result, s2);
    var r1 := JobSettle(c, e1, policy, input, attempt, result, s1);
    var r2 := JobSettle(c, e2, policy, input, attempt, result, s2);
    var u1, u2 := Write(s1, ch), Write(s2, ch);
    assert u1.log <= r1.state.log && u2.log <= r2.state.log;
    if s1.pos == m {
      PartsStay(m, u1.log, r1.state.log, u2.log, r2.state.log);
    } else {
      var verdict := JudgeJob(policy.retry, attempt, Recorded(result));
      JobForks(c, e1, e2, L, m, policy, input, verdict.attempt, u1, u2);
    }
  }

  // A visit parks only at an ordinal it is told to wait for.

  lemma {:induction false} TaskParks(c: Config, e: Env, p: RetryPolicy, task: string, input: string, attempt: nat,
      s: State)
    requires s.pos <= |s.log|
    ensures
      var r := TaskLoop(c, e, p, task, input, attempt, s);
      r.reply.Halted? && r.reply.stop.Parked? ==> e.waiting(r.reply.stop.ordinal)
    decreases |s.log| - s.pos, AttemptsLeft(p, attempt)
  {
    if s.pos < |s.log| {
      var verdict := Read(p, input, s.log[s.pos], s.pos);
      if verdict.Again? && !e.waiting(s.pos + 1) {
        TaskParks(c, e, p, task, input, verdict.attempt, s.(pos := s.pos + 1));
      }
    } else if !c.replay && task in c.local && s.budget > 0 {
      var u := Write(s.(ran := s.ran + [s.pos]), TaskOutcome(task, HashOf(input), attempt, e.outcome(s.pos)));
      var verdict := Judge(p, attempt, e.outcome(s.pos));
      if verdict.Again? && !e.waiting(u.pos) {
        TaskParks(c, e, p, task, input, verdict.attempt, u);
      }
    }
  }

  lemma {:induction false} WorkerParks(c: Config, e: Env, policy: RunPolicy, input: string, hist: seq<Return>, s: State)
    requires s.pos <= |s.log|
    ensures
      var r := WorkerLoop(c, e, policy, input, hist, s);
      r.Stopped? && r.stop.Parked? ==> e.waiting(r.stop.ordinal)
    decreases |s.log| - s.pos + s.budget
  {
    match c.program(input, hist)
    case Finish(_) =>
    case DoTask(over, task, taskInput) =>
      var t := TaskLoop(c, e, Effective(over, policy), task, taskInput, 1, s);
      TaskParks(c, e, Effective(over, policy), task, taskInput, 1, s);
      if t.reply.Returned? {
        WorkerParks(c, e, policy, input, hist + [t.reply.ret], t.state);
      }
  }

  lemma {:induction false} JobParks(c: Config, e: Env, policy: RunPolicy, input: string, attempt: nat, s: State)
    requires s.pos <= |s.log|
    ensures
      var r := JobLoop(c, e, policy, input, attempt, s);
      r.stop.Parked? ==> e.waiting(r.stop.ordinal)
    decreases |s.log| - s.pos, AttemptsLeft(policy.retry, attempt), 2
  {
    if s.pos < |s.log| && s.log[s.pos].JobOutcome? {
      CachedParks(c, e, policy, input, s);
    } else {
      WorkerParks(c, e, policy, input, [], s);
      var w := WorkerLoop(c, e, policy, input, [], s);
      if w.Finished? && !w.result.Nothing? {
        if w.state.pos < |w.state.log| {
          CachedParks(c, e, policy, input, w.state);
        } else if !c.replay && w.state.budget > 0 {
          var u := Write(w.state, JobOutcome(HashOf(input), attempt, Recorded(w.result)));
          var verdict := JudgeJob(policy.retry, attempt, Recorded(w.result));
          if verdict.RetryAs? && !e.waiting(u.pos) {
            JobParks(c, e, policy, input, verdict.attempt, u);
          }
        }
      }
    }
  }

  lemma {:induction false} CachedParks(c: Config, e: Env, policy: RunPolicy, input: string, s: State)
    requires s.pos < |s.log|
    ensures
      var r := JobCached(c, e, policy, input, s);
      r.stop.Parked? ==> e.waiting(r.stop.ordinal)
    decreases |s.log| - s.pos, 0, 0
  {
    var verdict := ReadJob(policy.retry, input, s.log[s.pos]);
    if verdict.RetryAs? && !e.waiting(s.pos + 1) {
      JobParks(c, e, policy, input, verdict.attempt, s.(pos := s.pos + 1));
    }
  }

  /** A restarted visit that is never made to wait and may write takes up the cut exactly: every
      kept chapter is what one uninterrupted run would have written there, no worker runs at or
      below the cut, and its first chapter is the step that was cut off, with a fresh outcome. */
  lemma RestartTakesUpTheCut(c: Config, plans: seq<Plan>, start: Chapter, k: nat, e: Env, budget: nat)
    requires !c.replay && start.JobStart? && plans != [] && budget > 0
    requires Refused(LastVisit(c, plans, [start]).state.log, k).None?
    requires forall n: nat :: n <= k + 1 ==> !e.waiting(n)
    ensures
      var log := LastVisit(c, plans, [start]).state.log;
      var kept := log[..k + 1];
      var again := DoJob(c, e, budget, kept);
      && kept <= again.state.log && AscendsFrom(again.state.ran, k + 1)
      && |again.state.log| > k + 1 && SameStep(log[k + 1], again.state.log[k + 1])
      && (again.state.log[k + 1].TaskOutcome? ==> again.state.log[k + 1].outcome == e.outcome(k + 1))
      && var single := DoJob(c, Splice(kept, e), k + budget, [start]);
         again.state.log == single.state.log && SameResult(again.stop, single.stop)
  {
    var log := LastVisit(c, plans, [start]).state.log;
    CrashSimulation(c, plans, [start]);
    var once: Plan :| CouldHaveBeen(c, once, [start], LastVisit(c, plans, [start]));
    TakesUpTheCut(c, once, start, k, e, budget, log);
  }

  lemma VisitParks(c: Config, e: Env, budget: nat, log: seq<Chapter>)
    ensures
      var r := DoJob(c, e, budget, log);
      r.stop.Parked? ==> e.waiting(r.stop.ordinal)
  {
    if log != [] && log[0].JobStart? {
      JobParks(c, e, JobPolicy(c, log[0]), log[0].input, 1, State(log, 1, budget, []));
    }
  }

  /** Never made to wait inside the kept log, the visit ends as one uninterrupted run does. */
  lemma NotParkedInside(c: Config, once: Plan, start: Chapter, k: nat, e: Env, budget: nat, log: seq<Chapter>)
    requires !c.replay && start.JobStart? && k + 1 < |log|
    requires log == DoJob(c, once.env, once.budget, [start]).state.log
    requires forall n: nat :: n <= k + 1 ==> !e.waiting(n)
    ensures
      var kept := log[..k + 1];
      var again, single := DoJob(c, e, budget, kept), DoJob(c, Splice(kept, e), k + budget, [start]);
      again.state.log == single.state.log && SameResult(again.stop, single.stop)
  {
    hide DoJob;
    var kept := log[..k + 1];
    assert [start] <= log && kept[0] == start;
    VisitResumes(c, once, e, budget, [start], kept);
    VisitParks(c, e, budget, kept);
  }

  lemma TakesUpTheCut(c: Config, once: Plan, start: Chapter, k: nat, e: Env, budget: nat, log: seq<Chapter>)
    requires !c.replay && start.JobStart? && budget > 0 && Refused(log, k).None?
    requires log == DoJob(c, once.env, once.budget, [start]).state.log
    requires forall n: nat :: n <= k + 1 ==> !e.waiting(n)
    ensures
      var kept := log[..k + 1];
      var again := DoJob(c, e, budget, kept);
      && kept <= again.state.log && AscendsFrom(again.state.ran, k + 1)
      && |again.state.log| > k + 1 && SameStep(log[k + 1], again.state.log[k + 1])
      && (again.state.log[k + 1].TaskOutcome? ==> again.state.log[k + 1].outcome == e.outcome(k + 1))
      && var single := DoJob(c, Splice(kept, e), k + budget, [start]);
         again.state.log == single.state.log && SameResult(again.stop, single.stop)
  {
    hide DoJob;
    NotParkedInside(c, once, start, k, e, budget, log);
    NoWorkerRunsForARecordedOrdinal(c, e, budget, log[..k + 1]);
    CutReached(c, once, start, k, e, budget, log);
  }

  lemma CutReached(c: Config, once: Plan, start: Chapter, k: nat, e: Env, budget: nat, log: seq<Chapter>)
    requires !c.replay && start.JobStart? && budget > 0 && k + 1 < |log|
    requires log == DoJob(c, once.env, once.budget, [start]).state.log
    requires forall n: nat :: n <= k + 1 ==> !e.waiting(n)
    ensures PartAt(k + 1, log, DoJob(c, Splice(log[..k + 1], e), k + budget, [start]).state.log)
  {
    var kept := log[..k + 1];
    assert kept[0] == start;
    forall n: nat | n < k + 1 && log[n].TaskOutcome?
      ensures Splice(kept, e).outcome(n) == log[n].outcome
    {
      assert kept[n] == log[n];
      assert OutcomeAt(kept, n) == log[n].outcome;
    }
    JobForks(c, once.env, Splice(kept, e), log, k + 1, JobPolicy(c, start), start.input, 1,
             State([start], 1, once.budget, []), State([start], 1, k + budget, []));
  }
}
