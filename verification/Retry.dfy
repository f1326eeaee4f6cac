/**
 Run policies and retry decisions (pkg/workflow/worker_retry.go).

 Durations are integers in nanoseconds.  A failure is one of the three kinds a chapter can
 hold; `LiveError` is a failure as the worker's Go code returned it, before it is recorded.
 */
module Retry {

  datatype Option<+T> = None | Some(value: T)

  datatype RetryPolicy = RetryPolicy(
    initialInterval: int,
    backoffCoefficient: real,
    maximumInterval: int,
    maximumAttempts: int,
    nonRetryable: seq<string>)

  datatype RunPolicy = RunPolicy(
    retry: RetryPolicy,
    invocationTimeout: Option<int>,
    totalTimeout: Option<int>)

  datatype TaskError =
    | App(message: string)
    | System(message: string)
    | Timeout(message: string, retryable: bool)

  /** A failure in memory: what it will be recorded as, whether it carries the
      NonRetryable marker, and the type names along its Unwrap chain. */
  datatype LiveError = LiveError(err: TaskError, marked: bool, typeNames: seq<string>)

  function NormalizeRetry(p: RetryPolicy): RetryPolicy {
    p.(maximumAttempts := if p.maximumAttempts <= 0 then 1 else p.maximumAttempts,
       backoffCoefficient := if p.backoffCoefficient == 0.0 then 1.0 else p.backoffCoefficient)
  }

  function NormalizeTimeout(d: Option<int>): Option<int> {
    if d.Some? && d.value < 0 then None else d
  }

  function NormalizeRun(p: RunPolicy): RunPolicy {
    RunPolicy(NormalizeRetry(p.retry), NormalizeTimeout(p.invocationTimeout), NormalizeTimeout(p.totalTimeout))
  }

  function MergeRetry(over: RetryPolicy, base: RetryPolicy): (r: RetryPolicy)
    ensures r.maximumAttempts >= 1
  {
    NormalizeRetry(RetryPolicy(
      if over.initialInterval != 0 then over.initialInterval else base.initialInterval,
      if over.backoffCoefficient != 0.0 then over.backoffCoefficient else base.backoffCoefficient,
      if over.maximumInterval != 0 then over.maximumInterval else base.maximumInterval,
      if over.maximumAttempts != 0 then over.maximumAttempts else base.maximumAttempts,
      if |over.nonRetryable| > 0 then over.nonRetryable else base.nonRetryable))
  }

  function MergeRun(over: RunPolicy, base: RunPolicy): (r: RunPolicy)
    ensures r.retry.maximumAttempts >= 1
  {
    NormalizeRun(RunPolicy(
      MergeRetry(over.retry, base.retry),
      if over.invocationTimeout.Some? then NormalizeTimeout(over.invocationTimeout) else base.invocationTimeout,
      if over.totalTimeout.Some? then NormalizeTimeout(over.totalTimeout) else base.totalTimeout))
  }

  /** Names under which a rehydrated failure can be listed as non-retryable. */
  function KindNames(e: TaskError): seq<string> {
    match e
    case App(_) => ["AppError", "jobdb.AppError"]
    case System(_) => ["SystemError", "jobdb.SystemError"]
    case Timeout(_, _) => ["TimeoutError", "jobdb.TimeoutError"]
  }

  predicate Named(names: seq<string>, p: RetryPolicy) {
    exists n :: n in p.nonRetryable && n in names
  }

  predicate IsRetryableLive(e: LiveError, p: RetryPolicy) {
    if e.err.Timeout? then e.err.retryable
    else !e.marked && !Named(e.typeNames, p)
  }

  /** The failure read back from a chapter: neither marker nor custom type survives. */
  function Rehydrated(e: TaskError): LiveError {
    LiveError(e, false, KindNames(e))
  }

  predicate IsRetryable(e: TaskError, p: RetryPolicy) {
    IsRetryableLive(Rehydrated(e), p)
  }

  /** A re-run takes the live retry decision exactly when the marker and the custom type
      names the chapter drops had no say in it. */
  lemma RetryDecisionSurvivesRecording(e: LiveError, p: RetryPolicy)
    ensures IsRetryableLive(e, p) == IsRetryable(e.err, p)
      <==> (e.err.Timeout? || ((e.marked || Named(e.typeNames, p)) == Named(KindNames(e.err), p)))
  {
  }

  /** Its kind is among the types along the failure's Unwrap chain. */
  ghost predicate OfItsKind(e: LiveError) {
    forall n :: n in KindNames(e.err) ==> n in e.typeNames
  }

  /** A failure as a worker may return it.  Only a failure of the engine's own types is recorded as
      a system error or a timeout; whatever else it is, typed or not, is recorded as an application
      error. */
  ghost predicate Possible(e: LiveError) {
    e.typeNames != [] && (!e.err.App? ==> OfItsKind(e))
  }

  /** The policies under which every unmarked failure is retried after a crash as it was live are
      those that list no type. */
  lemma PoliciesThatSurviveRecording(p: RetryPolicy)
    ensures (forall e: LiveError :: Possible(e) && !e.marked ==> IsRetryableLive(e, p) == IsRetryable(e.err, p))
      <==> p.nonRetryable == []
    ensures p.nonRetryable == [] ==> forall e: LiveError :: !e.marked ==> IsRetryableLive(e, p) == IsRetryable(e.err, p)
  {
    if p.nonRetryable != [] {
      var app := App("x");
      var name := if Named(KindNames(app), p) then Unlisted(p.nonRetryable) else p.nonRetryable[0];
      var e := LiveError(app, false, [name]);
      UnlistedIsLonger(p.nonRetryable);
      assert p.nonRetryable[0] in p.nonRetryable;
      assert Possible(e) && IsRetryableLive(e, p) != IsRetryable(e.err, p);
    }
  }

  /** A type name that a list does not hold. */
  function Unlisted(names: seq<string>): string {
    if names == [] then "x" else names[0] + Unlisted(names[1..])
  }

  lemma {:induction false} UnlistedIsLonger(names: seq<string>)
    ensures |Unlisted(names)| >= 1 && forall n :: n in names ==> |n| < |Unlisted(names)|
    decreases |names|
  {
    if names == [] {
    } else {
      UnlistedIsLonger(names[1..]);
    }
  }

  /** A plain error is an application error only once it is recorded: where those are listed it is
      retried while the worker lives and final after a crash. */
  lemma PlainErrorIsFinalAfterRecording(message: string)
    ensures
      var p := RetryPolicy(0, 1.0, 0, 3, ["AppError", "SystemError"]);
      && IsRetryableLive(LiveError(App(message), false, ["errorString", "errors.errorString"]), p)
      && !IsRetryable(App(message), p)
  {
    var p := RetryPolicy(0, 1.0, 0, 3, ["AppError", "SystemError"]);
    assert p.nonRetryable[0] in p.nonRetryable && p.nonRetryable[0] == KindNames(App(message))[0];
  }

  /** A policy lists no type at all, or both kinds of failure that a list can stop. */
  predicate ListsAllKindsOrNone(p: RetryPolicy) {
    p.nonRetryable == [] || (Named(KindNames(App("")), p) && Named(KindNames(System("")), p))
  }

  /** Among the failures that are of the kind they are recorded as, both extremes survive. */
  lemma TypedFailuresSurviveRecording(p: RetryPolicy)
    ensures (forall e: LiveError :: !e.marked && OfItsKind(e) ==> IsRetryableLive(e, p) == IsRetryable(e.err, p))
      <==> ListsAllKindsOrNone(p)
  {
    if ListsAllKindsOrNone(p) {
      forall e: LiveError | !e.marked && OfItsKind(e) ensures IsRetryableLive(e, p) == IsRetryable(e.err, p) {
        if Named(KindNames(e.err), p) {
          var n :| n in p.nonRetryable && n in KindNames(e.err);
          assert n in e.typeNames;
        }
      }
    } else {
      var listed := p.nonRetryable[0];
      var err := if Named(KindNames(App("")), p) then System("") else App("");
      var e := LiveError(err, false, KindNames(err) + [listed]);
      assert listed in p.nonRetryable && listed in e.typeNames;
      assert OfItsKind(e) && !IsRetryableLive(e, p) && IsRetryable(err, p);
    }
  }

  /** A marked application failure is final while the worker lives and retried after a crash. */
  lemma MarkerIsLost(message: string, p: RetryPolicy)
    requires p.nonRetryable == []
    ensures !IsRetryableLive(LiveError(App(message), true, ["AppError"]), p)
    ensures IsRetryable(App(message), p)
  {
  }

  const UNSET := RunPolicy(RetryPolicy(0, 0.0, 0, 0, []), None, None)

  predicate SetsEverything(p: RunPolicy) {
    && p.retry.initialInterval != 0 && p.retry.backoffCoefficient != 0.0 && p.retry.maximumInterval != 0
    && p.retry.maximumAttempts != 0 && p.retry.nonRetryable != []
    && p.invocationTimeout.Some? && p.totalTimeout.Some?
  }

  /** An override that sets nothing leaves the base, one that sets everything hides it. */
  lemma OverridesTakePrecedence(over: RunPolicy, base: RunPolicy)
    ensures MergeRun(UNSET, base) == NormalizeRun(base)
    ensures SetsEverything(over) ==> MergeRun(over, base) == NormalizeRun(over)
  {
  }

  /** A suspended job stores its effective policy in the row; the next worker merges the start
      chapter's policy into it again and must arrive at the same policy. */
  lemma EffectivePolicyIsStable(start: RunPolicy, base: RunPolicy)
    ensures MergeRun(start, NormalizeRun(MergeRun(start, base))) == MergeRun(start, base)
  {
  }
}
