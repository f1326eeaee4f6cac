/**
 Idempotent submit (pkg/jobdb/runtime/sqlite/{runtime,reconcile,scheduler,codec}.go): a request
 that names its job id may be repeated, also after a crash between its transactions.
 */
module Submit {
  import opened Retry
  import opened Texts

  /** Application metadata as sent: no text, the JSON value null, or an object. */
  datatype Metadata = Blank | Null | Object(fields: map<string, string>)

  datatype Prerequisite = Prerequisite(job: string, condition: string)

  datatype Request = Request(
    jobType: string, inputHash: string, metadata: Metadata, policy: RunPolicy,
    prerequisites: seq<Prerequisite>, availableAt: Option<int>, schemaHash: string, parent: string)

  /** What the start chapter says once it has been stored and read back. */
  datatype Start = Start(jobType: string, inputHash: string, metadata: Option<map<string, string>>, policy: RunPolicy,
                         prerequisites: seq<Prerequisite>)

  datatype Envelope = Envelope(app: Metadata, schemaHash: string, parent: string)

  datatype Row = Row(jobType: string, metadata: Envelope, waitFor: seq<string>, policy: RunPolicy, availableAt: int)

  datatype Story = Missing | Empty | Started(start: Start)

  datatype Job = Job(story: Story, row: Option<Row>)

  /** Where a call dies: nowhere, between the story's row and its first chapter, or between the
      first chapter and the job row. */
  datatype Crash = Never | AfterStory | AfterStart

  datatype Answer = Accepted | Refused | Died

  // Prerequisites.

  predicate BlankText(s: string) {
    forall i :: 0 <= i < |s| ==> IsSpace(s[i])
  }

  function WithCondition(p: Prerequisite): Prerequisite {
    if p.condition == "" then p.(condition := "complete") else p
  }

  predicate KnownCondition(c: string) {
    c == "complete" || c == "success"
  }

  /** The first mention of every awaited job, or None for a list that is refused. */
  function Normalized(job: string, ps: seq<Prerequisite>, seen: set<string>): Option<seq<Prerequisite>>
    decreases |ps|
  {
    if ps == [] then Some([])
    else
      var p := ps[0];
      if BlankText(p.job) || p.job == job then None
      else if p.job in seen then Normalized(job, ps[1..], seen)
      else if !KnownCondition(WithCondition(p).condition) then None
      else match Normalized(job, ps[1..], seen + {p.job})
        case None => None
        case Some(rest) => Some([WithCondition(p)] + rest)
  }

  function Jobs(ps: seq<Prerequisite>): seq<string> {
    seq(|ps|, i requires 0 <= i < |ps| => ps[i].job)
  }

  method NormalizePrerequisites(job: string, ps: seq<Prerequisite>)
    returns (normalized: Option<seq<Prerequisite>>, waitFor: seq<string>)
    ensures normalized == Normalized(job, ps, {})
    ensures normalized.Some? ==> waitFor == Jobs(normalized.value)
  {
    waitFor := [];
    var done: seq<Prerequisite> := [];
    var seen: set<string> := {};
    var i := 0;
    assert ps[0..] == ps;
    forall rest: seq<Prerequisite> ensures [] + rest == rest {}
    while i < |ps|
      invariant 0 <= i <= |ps| && waitFor == Jobs(done)
      invariant Normalized(job, ps, {}) ==
        match Normalized(job, ps[i..], seen)
        case None => None
        case Some(rest) => Some(done + rest)
    {
      var p := ps[i];
      assert ps[i..][0] == p && ps[i..][1..] == ps[i + 1..];
      i := i + 1;
      if BlankText(p.job) || p.job == job { return None, []; }
      if p.job in seen { continue; }
      seen := seen + {p.job};
      var q := WithCondition(p);
      if !KnownCondition(q.condition) { return None, []; }
      ghost var before := done;
      done := done + [q];
      waitFor := waitFor + [q.job];
      forall rest: seq<Prerequisite> ensures before + ([q] + rest) == done + rest {}
    }
    assert done + [] == done;
    return Some(done), waitFor;
  }

  /** No job twice, none of those already seen, not the job itself. */
  ghost predicate Distinct(job: string, r: seq<Prerequisite>, seen: set<string>) {
    && (forall i, j :: 0 <= i < j < |r| ==> r[i].job != r[j].job)
    && (forall i :: 0 <= i < |r| ==> r[i].job !in seen && r[i].job != job && KnownCondition(r[i].condition))
  }

  ghost predicate Names(r: seq<Prerequisite>, id: string) {
    exists i :: 0 <= i < |r| && r[i].job == id
  }

  ghost predicate Covers(ps: seq<Prerequisite>, r: seq<Prerequisite>, seen: set<string>) {
    forall p :: p in ps ==> p.job in seen || Names(r, p.job)
  }

  ghost predicate TakenFrom(ps: seq<Prerequisite>, q: Prerequisite) {
    exists p :: p in ps && q == WithCondition(p)
  }

  lemma DistinctGrows(job: string, q: Prerequisite, rest: seq<Prerequisite>, seen: set<string>)
    requires Distinct(job, rest, seen + {q.job}) && q.job !in seen && q.job != job && KnownCondition(q.condition)
    ensures Distinct(job, [q] + rest, seen)
  {
  }

  lemma CoversGrows(ps: seq<Prerequisite>, q: Prerequisite, rest: seq<Prerequisite>, seen: set<string>)
    requires ps != [] && q.job == ps[0].job && Covers(ps[1..], rest, seen + {q.job})
    ensures Covers(ps, [q] + rest, seen)
  {
    forall p | p in ps && p.job !in seen ensures Names([q] + rest, p.job) {
      if p.job == q.job {
        assert ([q] + rest)[0].job == p.job;
      } else {
        assert p in ps[1..];
        var i :| 0 <= i < |rest| && rest[i].job == p.job;
        assert ([q] + rest)[i + 1].job == p.job;
      }
    }
  }

  lemma TakenFromMore(ps: seq<Prerequisite>, rest: seq<Prerequisite>)
    requires ps != [] && forall i :: 0 <= i < |rest| ==> TakenFrom(ps[1..], rest[i])
    ensures forall i :: 0 <= i < |rest| ==> TakenFrom(ps, rest[i])
  {
    forall i | 0 <= i < |rest| ensures TakenFrom(ps, rest[i]) {
      var p :| p in ps[1..] && rest[i] == WithCondition(p);
      assert p in ps;
    }
  }

  /** The normalized list names each awaited job once, none of them seen before, none the job
      itself, and leaves out none. */
  lemma {:induction false} NormalizedNamesEachOnce(job: string, ps: seq<Prerequisite>, seen: set<string>)
    requires Normalized(job, ps, seen).Some?
    ensures
      var r := Normalized(job, ps, seen).value;
      Distinct(job, r, seen) && Covers(ps, r, seen) && forall i :: 0 <= i < |r| ==> TakenFrom(ps, r[i])
    decreases |ps|
  {
    if ps == [] {
    } else {
      var p := ps[0];
      var seen' := if p.job in seen then seen else seen + {p.job};
      NormalizedNamesEachOnce(job, ps[1..], seen');
      var rest := Normalized(job, ps[1..], seen').value;
      TakenFromMore(ps, rest);
      if p.job !in seen {
        var q := WithCondition(p);
        assert TakenFrom(ps, q);
        DistinctGrows(job, q, rest, seen);
        CoversGrows(ps, q, rest, seen);
      }
    }
  }

  /** The prerequisites in the order of their first mention, read from the front; an empty condition
      means completion. */
  function FirstMentions(ps: seq<Prerequisite>): seq<Prerequisite>
    decreases |ps|
  {
    if ps == [] then []
    else
      var front, last := FirstMentions(ps[..|ps| - 1]), ps[|ps| - 1];
      if exists i :: 0 <= i < |front| && front[i].job == last.job then front
      else front + [Prerequisite(last.job, if last.condition == "" then "complete" else last.condition)]
  }

  /** What makes the k-th prerequisite of a job a refusal: no job, the job itself, or, where a job is
      first mentioned, a condition that is not known. */
  ghost predicate Refusable(job: string, ps: seq<Prerequisite>, k: nat)
    requires k < |ps|
  {
    || (forall i :: 0 <= i < |ps[k].job| ==> IsSpace(ps[k].job[i]))
    || ps[k].job == job
    || ((forall i :: 0 <= i < k ==> ps[i].job != ps[k].job) && ps[k].condition !in {"", "complete", "success"})
  }

  lemma {:induction false} NormalizedFromTheBack(job: string, ps: seq<Prerequisite>, p: Prerequisite, seen: set<string>)
    ensures Normalized(job, ps + [p], seen) ==
      match Normalized(job, ps, seen)
      case None => None
      case Some(r) =>
        if BlankText(p.job) || p.job == job then None
        else if p.job in seen || exists i :: 0 <= i < |r| && r[i].job == p.job then Some(r)
        else if !KnownCondition(WithCondition(p).condition) then None
        else Some(r + [WithCondition(p)])
    decreases |ps|
  {
    if ps == [] {
      assert ps + [p] == [p] && [p][1..] == [] && Normalized(job, [], seen + {p.job}) == Some([]);
      assert [WithCondition(p)] + [] == [WithCondition(p)] == [] + [WithCondition(p)];
    } else {
      var seen' := if ps[0].job in seen then seen else seen + {ps[0].job};
      assert (ps + [p])[0] == ps[0] && (ps + [p])[1..] == ps[1..] + [p];
      NormalizedFromTheBack(job, ps[1..], p, seen');
      if ps[0].job !in seen && Normalized(job, ps[1..], seen').Some? {
        var rest, q := Normalized(job, ps[1..], seen').value, WithCondition(ps[0]);
        assert forall i :: 0 <= i < |rest| ==> ([q] + rest)[i + 1] == rest[i];
        assert ([q] + rest)[0].job == ps[0].job;
        assert [q] + (rest + [WithCondition(p)]) == ([q] + rest) + [WithCondition(p)];
      }
    }
  }

  lemma {:induction false} MentionedOnce(ps: seq<Prerequisite>, id: string)
    ensures (exists i :: 0 <= i < |FirstMentions(ps)| && FirstMentions(ps)[i].job == id)
      <==> exists i :: 0 <= i < |ps| && ps[i].job == id
    decreases |ps|
  {
    if ps == [] {
    } else {
      var front, last := FirstMentions(ps[..|ps| - 1]), ps[|ps| - 1];
      MentionedOnce(ps[..|ps| - 1], id);
      if i :| 0 <= i < |ps| - 1 && ps[i].job == id { assert ps[..|ps| - 1][i].job == id; }
      if i :| 0 <= i < |front| && front[i].job == id { assert FirstMentions(ps)[i] == front[i]; }
      if last.job == id && FirstMentions(ps) != front { assert FirstMentions(ps)[|front|].job == id; }
    }
  }

  lemma StillRefusable(job: string, front: seq<Prerequisite>, last: Prerequisite, k: nat)
    requires k < |front|
    ensures Refusable(job, front, k) == Refusable(job, front + [last], k)
  {
    hide IsSpace;
    assert forall i :: 0 <= i <= k ==> front[i] == (front + [last])[i];
  }

  lemma SameCondition(p: Prerequisite)
    ensures WithCondition(p) == Prerequisite(p.job, if p.condition == "" then "complete" else p.condition)
  {
  }

  lemma NothingIsNormal(job: string)
    ensures Normalized(job, [], {}) == Some([])
  {
  }

  lemma LastIsRefusable(job: string, front: seq<Prerequisite>, last: Prerequisite)
    ensures Refusable(job, front + [last], |front|) <==>
      || BlankText(last.job) || last.job == job
      || (!KnownCondition(WithCondition(last).condition) && !exists i :: 0 <= i < |front| && front[i].job == last.job)
  {
    hide IsSpace;
    var ps := front + [last];
    assert ps[|front|] == last;
    if forall i :: 0 <= i < |front| ==> ps[i].job != last.job {
      forall i | 0 <= i < |front| ensures front[i].job != last.job { assert ps[i] == front[i]; }
    }
  }

  /** A list is refused exactly if one of its prerequisites is refusable, and else comes to its first
      mentions in their order. */
  lemma {:induction false} NormalizedIsFirstMentions(job: string, ps: seq<Prerequisite>)
    ensures Normalized(job, ps, {}) ==
      if exists k :: 0 <= k < |ps| && Refusable(job, ps, k) then None else Some(FirstMentions(ps))
    decreases |ps|
  {
    hide IsSpace, BlankText, Normalized, Refusable, KnownCondition;
    if ps == [] {
      NothingIsNormal(job);
    } else {
      var front, last := ps[..|ps| - 1], ps[|ps| - 1];
      assert front + [last] == ps;
      NormalizedIsFirstMentions(job, front);
      NormalizedFromTheBack(job, front, last, {});
      MentionedOnce(front, last.job);
      forall k | 0 <= k < |front| ensures Refusable(job, front, k) == Refusable(job, ps, k) {
        StillRefusable(job, front, last, k);
      }
      if exists k :: 0 <= k < |front| && Refusable(job, front, k) {
        var k :| 0 <= k < |front| && Refusable(job, front, k);
        assert Refusable(job, ps, k);
      } else {
        assert (exists k :: 0 <= k < |ps| && Refusable(job, ps, k)) <==> Refusable(job, ps, |front|);
        LastIsRefusable(job, front, last);
        SameCondition(last);
      }
    }
  }

  // What is stored and how it is compared.

  /** The chapter codec stores a duration of zero as no duration. */
  function CodedTimeout(d: Option<int>): Option<int> {
    if d == Some(0) then None else d
  }

  function CodedPolicy(p: RunPolicy): RunPolicy {
    p.(invocationTimeout := CodedTimeout(p.invocationTimeout), totalTimeout := CodedTimeout(p.totalTimeout))
  }

  /** Blank metadata is stored as the empty object; a JSON null is stored as nothing. */
  function StoredMetadata(m: Metadata): Option<map<string, string>> {
    match m
    case Blank => Some(map[])
    case Null => None
    case Object(fields) => Some(fields)
  }

  function Fields(m: Metadata): map<string, string> {
    if m.Object? then m.fields else map[]
  }

  function StartOf(r: Request, prerequisites: seq<Prerequisite>): Start {
    Start(r.jobType, r.inputHash, StoredMetadata(r.metadata), CodedPolicy(NormalizeRun(r.policy)), prerequisites)
  }

  /** `compareSubmitStartChapter`. */
  predicate StartAgrees(start: Start, r: Request, prerequisites: seq<Prerequisite>) {
    && start.jobType == r.jobType
    && start.inputHash == r.inputHash
    && (start.metadata.Some? ==> start.metadata.value == Fields(r.metadata))
    && NormalizeRun(start.policy) == NormalizeRun(r.policy)
    && start.prerequisites == prerequisites
  }

  const TWO63 := 0x8000_0000_0000_0000
  const TWO64 := 0x1_0000_0000_0000_0000

  /** The zero time, the first instant of year 1, counted in nanoseconds from the Unix epoch. */
  const ZERO_TIME := -62_135_596_800_000_000_000

  /** `timeToNS`: the zero time is stored as 0, any other in 64 bits. */
  function CodedTime(t: int): int {
    if t == ZERO_TIME then 0 else (t + TWO63) % TWO64 - TWO63
  }

  /** `timeFromNS`. */
  function DecodedTime(ns: int): int {
    if ns == 0 then ZERO_TIME else ns
  }

  /** The instants a row can give back: not the Unix epoch, and nothing outside 64 bits but the
      zero time. */
  predicate TimeSurvives(t: int) {
    t == ZERO_TIME || (t != 0 && -TWO63 <= t < TWO63)
  }

  /** 719162 days before the epoch, which is far outside 64 bits of nanoseconds. */
  lemma ZeroTimeIsYearOne()
    ensures ZERO_TIME == -719_162 * 86_400 * 1_000_000_000 && ZERO_TIME < -0x8000_0000_0000_0000
  {
  }

  lemma TimeRoundTrip(t: int)
    ensures DecodedTime(CodedTime(t)) == t <==> TimeSurvives(t)
  {
    if -TWO63 <= t < TWO63 {
      assert (t + TWO63) % TWO64 == t + TWO63;
    } else {
      assert -TWO63 <= (t + TWO63) % TWO64 - TWO63 < TWO63;
    }
  }

  function RowOf(r: Request, prerequisites: seq<Prerequisite>, now: int): Row {
    Row(r.jobType, Envelope(r.metadata, r.schemaHash, r.parent), Jobs(prerequisites), NormalizeRun(r.policy),
        CodedTime(if r.availableAt.Some? then r.availableAt.value else now))
  }

  /** `ensureSubmittedJobRecord` on a row that is there already. */
  predicate RowAgrees(row: Row, r: Request) {
    && row.metadata == Envelope(r.metadata, r.schemaHash, r.parent)
    && (r.availableAt.Some? ==> DecodedTime(row.availableAt) == r.availableAt.value)
  }

  function Recorded(j: Job, r: Request, prerequisites: seq<Prerequisite>, now: int): (Answer, Job) {
    if j.row.None? then (Accepted, j.(row := Some(RowOf(r, prerequisites, now))))
    else (if RowAgrees(j.row.value, r) then Accepted else Refused, j)
  }

  /** One submit call for an explicit job id. */
  function SubmitJob(id: string, j: Job, r: Request, now: int, crash: Crash): (Answer, Job) {
    match Normalized(id, r.prerequisites, {})
    case None => (Refused, j)
    case Some(ps) =>
      match j.story
      case Missing =>
        if crash.AfterStory? then (Died, j.(story := Empty))
        else
          var started := j.(story := Started(StartOf(r, ps)));
          if crash.AfterStart? then (Died, started) else Recorded(started, r, ps, now)
      case Empty => (Refused, j)
      case Started(start) =>
        if !StartAgrees(start, r, ps) then (Refused, j)
        else if !crash.Never? then (Died, j) else Recorded(j, r, ps, now)
  }

  datatype Try = Try(request: Request, now: int, crash: Crash)

  function SubmitAll(id: string, j: Job, tries: seq<Try>): Job
    decreases |tries|
  {
    if tries == [] then j
    else SubmitAll(id, SubmitJob(id, j, tries[0].request, tries[0].now, tries[0].crash).1, tries[1..])
  }

  const NOWHERE := Job(Missing, None)

  // Any calls, one after another.

  /** The first start chapter and the first row are final. */
  lemma {:induction false} FirstOnesStay(id: string, j: Job, tries: seq<Try>)
    requires j.row.Some? ==> j.story.Started?
    ensures
      var j' := SubmitAll(id, j, tries);
      && (j'.row.Some? ==> j'.story.Started?)
      && (!j.story.Missing? ==> j'.story == j.story)
      && (j.row.Some? ==> j'.row == j.row)
    decreases |tries|
  {
    if tries == [] {
    } else {
      FirstOnesStay(id, SubmitJob(id, j, tries[0].request, tries[0].now, tries[0].crash).1, tries[1..]);
    }
  }

  predicate NoZeroTimeout(r: Request) {
    r.policy.invocationTimeout != Some(0) && r.policy.totalTimeout != Some(0)
  }

  /** A stored request agrees with itself exactly when it set no timeout to zero. */
  lemma AgreesWithItself(r: Request, ps: seq<Prerequisite>)
    ensures StartAgrees(StartOf(r, ps), r, ps) <==> NoZeroTimeout(r)
  {
    var p := NormalizeRun(r.policy);
    assert NormalizeRun(CodedPolicy(p)).retry == p.retry;
  }

  /** This request's chapter, and possibly its row. */
  ghost predicate MadeBy(j: Job, r: Request, ps: seq<Prerequisite>) {
    && j.story == Started(StartOf(r, ps))
    && (j.row.Some? ==> exists at: int :: j.row == Some(RowOf(r, ps, at)))
  }

  /** One of the calls ran to its end. */
  ghost predicate SomeTryEnds(tries: seq<Try>) {
    exists i :: 0 <= i < |tries| && tries[i].crash.Never?
  }

  lemma {:induction false} OnlyThisRequest(id: string, r: Request, j: Job, tries: seq<Try>, ps: seq<Prerequisite>)
    requires Normalized(id, r.prerequisites, {}) == Some(ps) && MadeBy(j, r, ps)
    requires forall i :: 0 <= i < |tries| ==> tries[i].request == r
    ensures
      var j' := SubmitAll(id, j, tries);
      MadeBy(j', r, ps) && (NoZeroTimeout(r) ==> (j'.row.Some? <==> j.row.Some? || SomeTryEnds(tries)))
    decreases |tries|
  {
    if tries == [] {
    } else {
      var next := SubmitJob(id, j, r, tries[0].now, tries[0].crash).1;
      AgreesWithItself(r, ps);
      if j.row.None? && next.row.Some? { assert next.row == Some(RowOf(r, ps, tries[0].now)); }
      OnlyThisRequest(id, r, next, tries[1..], ps);
      EndsFirstOrLater(tries);
    }
  }

  lemma EndsFirstOrLater(tries: seq<Try>)
    requires tries != []
    ensures SomeTryEnds(tries) <==> tries[0].crash.Never? || SomeTryEnds(tries[1..])
  {
    if SomeTryEnds(tries) {
      var i :| 0 <= i < |tries| && tries[i].crash.Never?;
      if i > 0 { assert tries[1..][i - 1] == tries[i]; }
    }
    if SomeTryEnds(tries[1..]) {
      var i :| 0 <= i < |tries[1..]| && tries[1..][i].crash.Never?;
      assert tries[i + 1] == tries[1..][i];
    }
  }

  predicate AvailabilitySurvives(r: Request) {
    r.availableAt.Some? ==> TimeSurvives(r.availableAt.value)
  }

  /** What can be said of a series of calls beforehand: nothing was sent yet, or the first call
      got past its first transaction, no timeout is zero, and the row can give back the time the
      job becomes available, if a row has been written at all. */
  ghost predicate CanConverge(r: Request, tries: seq<Try>) {
    || tries == []
    || (&& !tries[0].crash.AfterStory? && NoZeroTimeout(r)
        && (AvailabilitySurvives(r) || !SomeTryEnds(tries)))
  }

  lemma MadeByAgrees(j: Job, r: Request, ps: seq<Prerequisite>)
    requires MadeBy(j, r, ps) && j.row.Some?
    ensures RowAgrees(j.row.value, r) <==> AvailabilitySurvives(r)
  {
    if r.availableAt.Some? { TimeRoundTrip(r.availableAt.value); }
  }

  /** Repeating one request, wherever the calls die, is accepted in the end exactly when the first
      call did not die before its start chapter, no timeout is zero, and the time of availability
      survives or no earlier call got as far as the row; the job then holds the request's start
      chapter and its row. */
  lemma RepeatedSubmitConverges(id: string, r: Request, tries: seq<Try>, now: int)
    requires Normalized(id, r.prerequisites, {}).Some?
    requires forall i :: 0 <= i < |tries| ==> tries[i].request == r
    ensures
      var ps := Normalized(id, r.prerequisites, {}).value;
      var (answer, j) := SubmitJob(id, SubmitAll(id, NOWHERE, tries), r, now, Never);
      && (answer == Accepted <==> CanConverge(r, tries))
      && (answer == Accepted ==> j.story == Started(StartOf(r, ps)))
      && (answer == Accepted ==> j.row.Some? && exists at: int :: j.row == Some(RowOf(r, ps, at)))
      && (answer != Accepted ==> answer == Refused && j == SubmitAll(id, NOWHERE, tries))
  {
    var ps := Normalized(id, r.prerequisites, {}).value;
    var j := SubmitAll(id, NOWHERE, tries);
    AgreesWithItself(r, ps);
    if tries == [] {
      assert SubmitJob(id, j, r, now, Never).1.row == Some(RowOf(r, ps, now));
    } else {
      var first := SubmitJob(id, NOWHERE, r, tries[0].now, tries[0].crash).1;
      if tries[0].crash.AfterStory? {
        HalfCreatedStoryIsRefusedForever(id, first, tries[1..], r, now, Never);
      } else {
        if first.row.Some? { assert first.row == Some(RowOf(r, ps, tries[0].now)); }
        OnlyThisRequest(id, r, first, tries[1..], ps);
        EndsFirstOrLater(tries);
        if j.row.Some? {
          MadeByAgrees(j, r, ps);
        } else if NoZeroTimeout(r) {
          assert SubmitJob(id, j, r, now, Never).1.row == Some(RowOf(r, ps, now));
        }
      }
    }
  }

  /** A start chapter keeps timeouts above zero and no others. */
  predicate StoredTimeout(given: Option<int>, stored: Option<int>) {
    && (given.Some? && given.value > 0 ==> stored == given)
    && (given.None? || given.value <= 0 ==> stored == None)
  }

  /** What an accepted first call leaves: a start chapter and a row that say what was asked for. */
  lemma FirstCallStores(id: string, r: Request, ps: seq<Prerequisite>, now: int)
    requires Normalized(id, r.prerequisites, {}) == Some(ps)
    ensures
      var (answer, j) := SubmitJob(id, NOWHERE, r, now, Never);
      && answer == Accepted && j.story.Started? && j.row.Some?
      && var start, row := j.story.start, j.row.value;
         && start.jobType == row.jobType == r.jobType && start.inputHash == r.inputHash && start.prerequisites == ps
         && (r.metadata.Object? ==> start.metadata == Some(r.metadata.fields))
         && (r.metadata.Blank? ==> start.metadata == Some(map[])) && (r.metadata.Null? ==> start.metadata == None)
         && row.waitFor == seq(|ps|, i requires 0 <= i < |ps| => ps[i].job)
         && row.metadata == Envelope(r.metadata, r.schemaHash, r.parent)
         && start.policy.retry == row.policy.retry == NormalizeRun(r.policy).retry
         && row.policy == NormalizeRun(r.policy)
         && StoredTimeout(r.policy.totalTimeout, start.policy.totalTimeout)
         && StoredTimeout(r.policy.invocationTimeout, start.policy.invocationTimeout)
         && (r.availableAt.Some? && 0 < r.availableAt.value < TWO63 ==> row.availableAt == r.availableAt.value)
         && (r.availableAt.None? && 0 < now < TWO63 ==> row.availableAt == now)
  {
  }

  /** The stages a call dies at: before its story nothing is there, then an empty story, then a start
      chapter without a row; a later call dies without a trace. */
  lemma DeathsLeave(id: string, j: Job, r: Request, now: int, crash: Crash)
    requires Normalized(id, r.prerequisites, {}).Some? && crash != Never && (j.story.Started? || j == NOWHERE)
    ensures
      var (answer, j') := SubmitJob(id, j, r, now, crash);
      && !answer.Accepted? && j'.row == j.row
      && (j.story.Missing? ==> answer == Died && (j'.story.Empty? <==> crash == AfterStory))
      && (j.story.Missing? && crash == AfterStart ==> j'.story == SubmitJob(id, j, r, now, Never).1.story)
      && (j.story.Started? ==> j' == j)
  {
  }

  /** Once a lease has moved the time at which the job becomes available, the request is accepted
      again exactly if it names no time, or the very time the row has come to hold. */
  lemma RepeatAfterMove(id: string, r: Request, ps: seq<Prerequisite>, j: Job, ns: int, now: int)
    requires Normalized(id, r.prerequisites, {}) == Some(ps) && MadeBy(j, r, ps) && j.row.Some?
    ensures
      var moved := j.(row := Some(j.row.value.(availableAt := ns)));
      SubmitJob(id, moved, r, now, Never).0 == Accepted <==>
        NoZeroTimeout(r) && (r.availableAt.Some? ==> DecodedTime(ns) == r.availableAt.value)
  {
    AgreesWithItself(r, ps);
  }

  /** A job that becomes available at the Unix epoch is refused as different from itself. */
  lemma EpochIsRefused(id: string, r: Request, now: int, later: int)
    requires r.prerequisites == [] && r.availableAt == Some(0)
    ensures
      var first := SubmitJob(id, NOWHERE, r, now, Never);
      first.0 == Accepted && SubmitJob(id, first.1, r, later, Never) == (Refused, first.1)
  {
  }

  /** The two requests differ in what the start chapter keeps. */
  predicate Differs(id: string, a: Request, b: Request) {
    || a.jobType != b.jobType || a.inputHash != b.inputHash || Fields(a.metadata) != Fields(b.metadata)
    || NormalizeRun(CodedPolicy(NormalizeRun(a.policy))) != NormalizeRun(b.policy)
    || Normalized(id, a.prerequisites, {}) != Normalized(id, b.prerequisites, {})
  }

  /** Once a request's start chapter stands, a request that differs in type, input, metadata,
      policy or prerequisites is refused and changes nothing, row or no row, exactly unless the
      first one's metadata was a JSON null and nothing but the metadata differs. */
  lemma DifferentRequestIsRefused(id: string, first: Request, other: Request, j: Job, now: int, crash: Crash)
    requires Normalized(id, first.prerequisites, {}).Some?
    requires j.story == Started(StartOf(first, Normalized(id, first.prerequisites, {}).value))
    requires j.row.Some? ==>
      exists at: int :: j.row == Some(RowOf(first, Normalized(id, first.prerequisites, {}).value, at))
    requires Differs(id, first, other)
    ensures
      var hidden := first.metadata.Null? && !Differs(id, first, other.(metadata := Null));
      && (!hidden ==> SubmitJob(id, j, other, now, crash) == (Refused, j))
      && (j.row.Some? ==>
            SubmitJob(id, j, other, now, crash).1 == j && !SubmitJob(id, j, other, now, crash).0.Accepted?)
      && (hidden && j.row.None? && crash.Never? ==> SubmitJob(id, j, other, now, crash).0 == Accepted)
  {
  }

  /** A crash between the story's row and its first chapter is for good: no request with that id
      is ever accepted and nothing ever changes. */
  lemma {:induction false} HalfCreatedStoryIsRefusedForever(id: string, j: Job, tries: seq<Try>, r: Request, now: int,
      crash: Crash)
    requires j.story.Empty?
    ensures SubmitAll(id, j, tries) == j
    ensures SubmitJob(id, SubmitAll(id, j, tries), r, now, crash) == (Refused, j)
    decreases |tries|
  {
    if tries == [] {
    } else {
      HalfCreatedStoryIsRefusedForever(id, j, tries[1..], r, now, crash);
    }
  }
}
