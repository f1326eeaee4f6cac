/**
 Schedules (pkg/jobdb/runtime/sqlite/{schedule,schedule_preflight}.go): every change to a
 schedule raises its generation, and an occurrence is handed to a worker only after a preflight
 against the schedule as it stands.
 */
module Schedules {
  import opened Retry

  datatype State = Active | Paused | Archived

  datatype FailurePolicy = FailurePolicy(minSuccessPercent: int, windowSize: int, maxSequentialFailures: int)

  datatype Schedule = Schedule(state: State, generation: int, spec: string, endAt: Option<int>, failures: FailurePolicy)

  /** A submitted run of a schedule.  `chapters` counts its story, `open` says whether its job can
      still be leased. */
  datatype Occurrence = Occurrence(
    schedule: string, generation: int, spec: string, scheduledAt: int,
    previous: string, bits: string, window: int, chapters: nat, open: bool)

  // The failure window.

  function AppendBit(bits: string, success: bool, window: int): string {
    var clean := if forall i :: 0 <= i < |bits| ==> bits[i] == '0' || bits[i] == '1' then bits else "";
    var longer := clean + if success then "1" else "0";
    if window > 0 && |longer| > window then longer[|longer| - window..] else longer
  }

  /** A window of bits takes the newest result at its end, '1' for a success, and lets go of the oldest
      ones only when it is full; anything else than bits is forgotten first. */
  lemma NewestBitIsLast(bits: string, success: bool, window: int)
    ensures
      var known := if forall i :: 0 <= i < |bits| ==> bits[i] in {'0', '1'} then bits else "";
      var r := AppendBit(bits, success, window);
      && |r| == (if 0 < window <= |known| then window else |known| + 1)
      && r[|r| - 1] == (if success then '1' else '0')
      && r[..|r| - 1] == known[|known| - (|r| - 1)..]
  {
    assert (forall i :: 0 <= i < |bits| ==> bits[i] == '0' || bits[i] == '1') <==>
      forall i :: 0 <= i < |bits| ==> bits[i] in {'0', '1'};
  }

  function Count(bits: string, c: char): nat {
    if bits == "" then 0 else (if bits[|bits| - 1] == c then 1 else 0) + Count(bits[..|bits| - 1], c)
  }

  /** The last n runs all failed. */
  predicate LastFailed(bits: string, n: nat) {
    n <= |bits| && forall i :: |bits| - n <= i < |bits| ==> bits[i] == '0'
  }

  predicate Violates(bits: string, p: FailurePolicy) {
    && bits != ""
    && (|| (p.maxSequentialFailures > 0 && LastFailed(bits, p.maxSequentialFailures))
        || (p.minSuccessPercent > 0 && Count(bits, '1') + Count(bits, '0') > 0
            && Count(bits, '1') * 100 < p.minSuccessPercent * (Count(bits, '1') + Count(bits, '0'))))
  }

  /** Counts back from the newest run, then over the whole window. */
  method FailurePolicyViolated(bits: string, p: FailurePolicy) returns (violated: bool)
    ensures violated <==> Violates(bits, p)
  {
    if bits == "" { return false; }
    if p.maxSequentialFailures > 0 {
      var count := 0;
      while count < |bits| && bits[|bits| - 1 - count] == '0'
        invariant 0 <= count <= |bits| && LastFailed(bits, count)
      {
        count := count + 1;
      }
      if count >= p.maxSequentialFailures { return true; }
      assert !LastFailed(bits, p.maxSequentialFailures) by {
        if count < |bits| { assert bits[|bits| - 1 - count] != '0'; }
      }
    }
    if p.minSuccessPercent > 0 {
      var successes, total := 0, 0;
      for i := 0 to |bits|
        invariant successes == Count(bits[..i], '1') && total == successes + Count(bits[..i], '0')
      {
        assert bits[..i + 1][..i] == bits[..i];
        if bits[i] == '1' {
          successes, total := successes + 1, total + 1;
        } else if bits[i] == '0' {
          total := total + 1;
        }
      }
      assert bits[..|bits|] == bits;
      if total > 0 && successes * 100 < p.minSuccessPercent * total { return true; }
    }
    return false;
  }

  // Changing a schedule.

  datatype Change =
    | Upsert(spec: string, endAt: Option<int>, failures: FailurePolicy, paused: bool, expected: Option<int>)
    | SetState(state: State, expected: Option<int>)

  /** None is a refused change. */
  function Changed(old': Option<Schedule>, c: Change): Option<Schedule> {
    match c
    case Upsert(spec, endAt, failures, paused, expected) =>
      if old'.Some? && old'.value.state.Archived? then None
      else if expected.Some? && (old'.None? || old'.value.generation != expected.value) then None
      else
        var generation := if old'.Some? then old'.value.generation + 1 else 1;
        Some(Schedule(if paused then Paused else Active, generation, spec, endAt, failures))
    case SetState(state, expected) =>
      if old'.None? then None
      else if expected.Some? && old'.value.generation != expected.value then None
      else if old'.value.state.Archived? && !state.Archived? then None
      else Some(old'.value.(state := state, generation := old'.value.generation + 1))
  }

  /** An accepted change strictly raises the generation, by one, and leaves an archived schedule
      archived. */
  lemma ChangeRaisesGeneration(old': Option<Schedule>, c: Change)
    requires Changed(old', c).Some?
    ensures Changed(old', c).value.generation == if old'.Some? then old'.value.generation + 1 else 1
    ensures old'.Some? && old'.value.state.Archived? ==> Changed(old', c).value.state.Archived? && c.SetState?
  {
  }

  // Handing an occurrence to a worker.

  datatype Verdict = HandOver | CancelFor(reason: string)

  /** The preflight of a leased occurrence, in the order the checks are made. */
  function Preflight(occ: Occurrence, schedule: Option<Schedule>, previousSucceeded: bool): Verdict {
    if occ.chapters > 1 then HandOver
    else match schedule
      case None => CancelFor("schedule_missing")
      case Some(s) =>
        if s.state.Paused? then CancelFor("schedule_paused")
        else if s.state.Archived? then CancelFor("schedule_archived")
        else if s.generation != occ.generation then CancelFor("schedule_generation_mismatch")
        else if s.spec != occ.spec then CancelFor("schedule_spec_mismatch")
        else if s.endAt.Some? && occ.scheduledAt > s.endAt.value then CancelFor("schedule_ended")
        else if Violates(Bits(occ, s, previousSucceeded), s.failures) then CancelFor("failure_policy")
        else HandOver
  }

  function Bits(occ: Occurrence, s: Schedule, previousSucceeded: bool): string {
    if occ.previous != "" then AppendBit(occ.bits, previousSucceeded, Window(occ, s)) else occ.bits
  }

  function Window(occ: Occurrence, s: Schedule): int {
    if s.failures.windowSize <= 0 then occ.window else s.failures.windowSize
  }

  /** Exactly when an unstarted occurrence is handed over. */
  lemma UnstartedIsHandedExactlyWhenCurrent(occ: Occurrence, schedule: Option<Schedule>, previousSucceeded: bool)
    requires occ.chapters <= 1
    ensures Preflight(occ, schedule, previousSucceeded) == HandOver <==>
      && schedule.Some?
      && var s := schedule.value;
         && s.state.Active? && s.generation == occ.generation && s.spec == occ.spec
         && !(s.endAt.Some? && occ.scheduledAt > s.endAt.value)
         && !Violates(Bits(occ, s, previousSucceeded), s.failures)
  {
  }

  /** An occurrence after its cancellation: an outcome behind the start chapter, and no lease any
      more.  A job that is closed already has no lease to cancel under. */
  function Cancelled(occ: Occurrence): Occurrence {
    if occ.open then occ.(chapters := if occ.chapters == 1 then 2 else occ.chapters, open := false) else occ
  }

  /** The reason a refusal names is the first that applies: paused and archived before any difference,
      a difference in generation before one in the target, the end before the failures. */
  lemma RefusalNamesItsReason(occ: Occurrence, s: Schedule, previousSucceeded: bool, reason: string)
    requires occ.chapters <= 1
    ensures Preflight(occ, None, previousSucceeded) == CancelFor("schedule_missing")
    ensures
      var verdict := Preflight(occ, Some(s), previousSucceeded);
      var ended := s.endAt.Some? && s.endAt.value < occ.scheduledAt;
      && (verdict == CancelFor("schedule_paused") <==> s.state == Paused)
      && (verdict == CancelFor("schedule_archived") <==> s.state == Archived)
      && (verdict == CancelFor("schedule_generation_mismatch") <==> s.state == Active && s.generation != occ.generation)
      && (verdict == CancelFor("schedule_spec_mismatch") <==>
            s.state == Active && s.generation == occ.generation && s.spec != occ.spec)
      && (verdict == CancelFor("schedule_ended") <==>
            s.state == Active && s.generation == occ.generation && s.spec == occ.spec && ended)
      && (verdict == CancelFor("failure_policy") <==>
            && s.state == Active && s.generation == occ.generation && s.spec == occ.spec && !ended
            && verdict != HandOver)
      && (verdict == CancelFor(reason) ==>
            reason in {"schedule_paused", "schedule_archived", "schedule_generation_mismatch",
                       "schedule_spec_mismatch", "schedule_ended", "failure_policy"})
  {
  }

  /** The failure limits on concrete windows: three failures in a row against a limit of three, two
      against three, and one success in two against a half and against more. */
  lemma LimitsOnWindows()
    ensures Violates("1000", FailurePolicy(0, 0, 3)) && !Violates("1100", FailurePolicy(0, 0, 3))
    ensures !Violates("10", FailurePolicy(50, 0, 0)) && Violates("10", FailurePolicy(51, 0, 0))
    ensures !Violates("", FailurePolicy(100, 0, 1)) && !Violates("0000", FailurePolicy(0, 0, 0))
  {
    assert Count("10", '1') == 1 && Count("10", '0') == 1 by {
      assert "10"[..1] == "1" && "1"[..0] == "";
    }
    assert LastFailed("1000", 3);
    assert "1100"[1] == '1';
  }

  // Whole runs.

  datatype World = World(schedules: map<string, Schedule>, occurrences: map<string, Occurrence>)

  /** How far the cancellation of a refused occurrence gets: to its end, to its chapter, or nowhere. */
  datatype Fate = Completes | DiesBetween | DiesBefore

  /** `Submit` may come from a copy of the row read before the latest change.  `Lease` is a
      preflight in one step, with what becomes of the cancellation if there is one. */
  datatype Event =
    | Edit(schedule: string, change: Change)
    | Submit(job: string, schedule: string, generation: int, spec: string, scheduledAt: int, previous: string,
             bits: string, window: int)
    | Write(job: string)
    | Close(job: string)
    | Lease(job: string, previousSucceeded: bool, fate: Fate)

  function Find<T>(m: map<string, T>, key: string): Option<T> {
    if key in m then Some(m[key]) else None
  }

  function Step(w: World, e: Event): World {
    match e
    case Edit(id, change) =>
      var s := Changed(Find(w.schedules, id), change);
      if s.Some? then w.(schedules := w.schedules[id := s.value]) else w
    case Submit(job, id, generation, spec, at, previous, bits, window) =>
      if job !in w.occurrences && id in w.schedules && generation <= w.schedules[id].generation
      then
        var size := if window <= 0 then |bits| else window;
        var occ := Occurrence(id, generation, spec, at, previous, bits, size, 1, true);
        w.(occurrences := w.occurrences[job := occ])
      else w
    case Write(job) =>
      if job in w.occurrences then
        var occ := w.occurrences[job];
        w.(occurrences := w.occurrences[job := occ.(chapters := occ.chapters + 1)])
      else w
    case Close(job) =>
      if job in w.occurrences then w.(occurrences := w.occurrences[job := w.occurrences[job].(open := false)]) else w
    case Lease(job, succeeded, fate) =>
      if job in w.occurrences && w.occurrences[job].open then
        var occ := w.occurrences[job];
        if Preflight(occ, Find(w.schedules, occ.schedule), succeeded) == HandOver || fate.DiesBefore? then w
        else w.(occurrences := w.occurrences[job := Cancelled(occ).(open := fate.DiesBetween?)])
      else w
  }

  function Run(w: World, events: seq<Event>): World
    decreases |events|
  {
    if events == [] then w else Run(Step(w, events[0]), events[1..])
  }

  /** How many changes of one schedule a run accepts. */
  function Changes(w: World, events: seq<Event>, id: string): nat
    decreases |events|
  {
    if events == [] then 0
    else
      var e := events[0];
      (if e.Edit? && e.schedule == id && Changed(Find(w.schedules, id), e.change).Some? then 1 else 0)
      + Changes(Step(w, e), events[1..], id)
  }

  /** Over every run the generation counts the accepted changes, an archived schedule stays
      archived, and a schedule no change was accepted for is what it was. */
  lemma {:induction false} GenerationsRise(w: World, events: seq<Event>, id: string)
    requires id in w.schedules
    ensures
      var w' := Run(w, events);
      && id in w'.schedules
      && w'.schedules[id].generation == w.schedules[id].generation + Changes(w, events, id)
      && (w.schedules[id].state.Archived? ==> w'.schedules[id].state.Archived?)
      && (Changes(w, events, id) == 0 ==> w'.schedules[id] == w.schedules[id])
    decreases |events|
  {
    if events == [] {
    } else {
      var e := events[0];
      if e.Edit? && e.schedule == id && Changed(Find(w.schedules, id), e.change).Some? {
        ChangeRaisesGeneration(Find(w.schedules, id), e.change);
      }
      GenerationsRise(Step(w, e), events[1..], id);
    }
  }

  /** What an occurrence was submitted with. */
  function Origin(occ: Occurrence): Occurrence {
    occ.(chapters := 0, open := false)
  }

  lemma {:induction false} OccurrencesKeepTheirOrigin(w: World, events: seq<Event>, job: string)
    requires job in w.occurrences
    ensures
      var w' := Run(w, events);
      && job in w'.occurrences
      && Origin(w'.occurrences[job]) == Origin(w.occurrences[job])
      && w'.occurrences[job].chapters >= w.occurrences[job].chapters
      && (!w.occurrences[job].open ==> !w'.occurrences[job].open)
    decreases |events|
  {
    if events == [] {
    } else {
      OccurrencesKeepTheirOrigin(Step(w, events[0]), events[1..], job);
    }
  }

  const NOTHING := World(map[], map[])

  lemma {:induction false} NeverAheadOfSchedule(w: World, events: seq<Event>)
    requires NotAhead(w)
    ensures NotAhead(Run(w, events))
    decreases |events|
  {
    if events == [] {
    } else {
      NeverAheadOfSchedule(Step(w, events[0]), events[1..]);
    }
  }

  ghost predicate NotAhead(w: World) {
    forall job :: job in w.occurrences ==>
      w.occurrences[job].schedule in w.schedules
        && w.occurrences[job].generation <= w.schedules[w.occurrences[job].schedule].generation
  }

  /** After any accepted change to its schedule, an earlier occurrence that still has only its
      start chapter is never handed to a worker again, whatever happens next. */
  lemma OldOccurrenceIsNeverHandedOver(before: seq<Event>, change: Change, after: seq<Event>, job: string,
      previousSucceeded: bool)
    requires job in Run(NOTHING, before).occurrences
    requires Changed(Find(Run(NOTHING, before).schedules, Run(NOTHING, before).occurrences[job].schedule), change).Some?
    ensures
      var id := Run(NOTHING, before).occurrences[job].schedule;
      var w := Run(Step(Run(NOTHING, before), Edit(id, change)), after);
      && job in w.occurrences
      && (w.occurrences[job].chapters <= 1 ==>
            Preflight(w.occurrences[job], Find(w.schedules, id), previousSucceeded) != HandOver)
  {
    var w0 := Run(NOTHING, before);
    var id := w0.occurrences[job].schedule;
    NeverAheadOfSchedule(NOTHING, before);
    var w1 := Step(w0, Edit(id, change));
    assert w1.schedules[id].generation > w0.occurrences[job].generation;
    GenerationsRise(w1, after, id);
    OccurrencesKeepTheirOrigin(w1, after, job);
  }

  /** An occurrence of the current generation that nobody has started is handed to a worker later
      exactly when no change to its schedule was accepted in between and it would have been handed
      over at once. */
  lemma UnstartedIsHandedUnlessChanged(w: World, after: seq<Event>, job: string, previousSucceeded: bool)
    requires job in w.occurrences && w.occurrences[job].schedule in w.schedules
    requires w.occurrences[job].generation == w.schedules[w.occurrences[job].schedule].generation
    ensures
      var occ := w.occurrences[job];
      var w' := Run(w, after);
      && job in w'.occurrences
      && (w'.occurrences[job].chapters <= 1 ==>
            (Preflight(w'.occurrences[job], Find(w'.schedules, occ.schedule), previousSucceeded) == HandOver <==>
              && Changes(w, after, occ.schedule) == 0
              && Preflight(occ, Find(w.schedules, occ.schedule), previousSucceeded) == HandOver))
  {
    var occ := w.occurrences[job];
    OccurrencesKeepTheirOrigin(w, after, job);
    GenerationsRise(w, after, occ.schedule);
    var w' := Run(w, after);
    if w'.occurrences[job].chapters <= 1 {
      UnstartedIsHandedExactlyWhenCurrent(occ, Find(w.schedules, occ.schedule), previousSucceeded);
      UnstartedIsHandedExactlyWhenCurrent(w'.occurrences[job], Find(w'.schedules, occ.schedule), previousSucceeded);
    }
  }

  /** A worker that leases the job now gets it. */
  predicate HandedOver(w: World, job: string, previousSucceeded: bool) {
    && job in w.occurrences && w.occurrences[job].open
    && Preflight(w.occurrences[job], Find(w.schedules, w.occurrences[job].schedule), previousSucceeded) == HandOver
  }

  /** An occurrence that was refused before it began is refused again for as long as it has not
      begun, whatever happens to its schedule and however cancellations die before their chapter;
      only what became of the previous run could change that. */
  lemma RefusedStaysRefused(w: World, job: string, previousSucceeded: bool, after: seq<Event>)
    requires NotAhead(w) && job in w.occurrences && w.occurrences[job].chapters <= 1
    requires
      var occ := w.occurrences[job];
      Preflight(occ, Find(w.schedules, occ.schedule), previousSucceeded) != HandOver
    ensures
      var w' := Run(w, after);
      && job in w'.occurrences
      && (HandedOver(w', job, previousSucceeded) <==> w'.occurrences[job].open && w'.occurrences[job].chapters > 1)
  {
    var occ := w.occurrences[job];
    OccurrencesKeepTheirOrigin(w, after, job);
    GenerationsRise(w, after, occ.schedule);
    if occ.generation == w.schedules[occ.schedule].generation {
      UnstartedIsHandedUnlessChanged(w, after, job, previousSucceeded);
    }
  }

  /** An occurrence that a worker has begun is handed over whatever its schedule has become, and one
      that is closed is handed over no more. */
  lemma BegunIsHandedOver(w: World, job: string, previousSucceeded: bool)
    requires job in w.occurrences && w.occurrences[job].chapters >= 1
    ensures HandedOver(Step(w, Write(job)), job, previousSucceeded) <==> w.occurrences[job].open
    ensures Step(w, Write(job)).occurrences ==
      w.occurrences[job := w.occurrences[job].(chapters := 1 + w.occurrences[job].chapters)]
    ensures Step(w, Close(job)).occurrences == w.occurrences[job := w.occurrences[job].(open := false)]
    ensures !HandedOver(Step(w, Close(job)), job, previousSucceeded)
  {
  }

  /** After a preflight has refused an occurrence that has only its start chapter: if the
      cancellation got to its chapter, any later lease hands the occurrence over exactly while it is
      open, and that is after a death; if it died before, a later lease under the same verdict on
      the previous run hands it over exactly if something else has written a chapter. */
  lemma RefusedIsHandedOverAfterADeath(w: World, job: string, s1: bool, fate: Fate, after: seq<Event>, s2: bool)
    requires job in w.occurrences && w.occurrences[job].open && w.occurrences[job].chapters == 1
    requires !HandedOver(w, job, s1)
    ensures
      var w' := Run(Step(w, Lease(job, s1, fate)), after);
      && job in w'.occurrences
      && var occ := w'.occurrences[job];
         && (!fate.DiesBefore? ==> (HandedOver(w', job, s2) <==> fate.DiesBetween? && occ.open))
         && (fate.DiesBefore? && NotAhead(w) ==> (HandedOver(w', job, s1) <==> occ.chapters > 1 && occ.open))
  {
    OccurrencesKeepTheirOrigin(Step(w, Lease(job, s1, fate)), after, job);
    if fate.DiesBefore? && NotAhead(w) { RefusedStaysRefused(w, job, s1, after); }
  }

  /** So the refused occurrence can ever reach a worker if and only if a cancellation died. */
  lemma HalfCancelledOccurrenceIsHandedOver(w: World, job: string, s1: bool, fate: Fate)
    requires job in w.occurrences && w.occurrences[job].open && w.occurrences[job].chapters == 1
    requires !HandedOver(w, job, s1)
    ensures (exists after, s2 :: HandedOver(Run(Step(w, Lease(job, s1, fate)), after), job, s2)) <==> !fate.Completes?
  {
    var w1 := Step(w, Lease(job, s1, fate));
    if fate.Completes? {
      forall after, s2 ensures !HandedOver(Run(w1, after), job, s2) {
        RefusedIsHandedOverAfterADeath(w, job, s1, fate, after, s2);
      }
    } else {
      var after := if fate.DiesBetween? then [] else [Lease(job, s1, DiesBetween)];
      RunOfOne(w, Lease(job, s1, DiesBetween));
      RefusedIsHandedOverAfterADeath(w, job, s1, DiesBetween, [], s1);
      assert Run(w1, after) == Run(Step(w, Lease(job, s1, DiesBetween)), []);
      assert HandedOver(Run(w1, after), job, s1);
    }
  }

  lemma {:induction false} RunJoins(w: World, first: seq<Event>, rest: seq<Event>)
    ensures Run(w, first + rest) == Run(Run(w, first), rest)
    decreases |first|
  {
    if first == [] {
      assert first + rest == rest;
    } else {
      assert (first + rest)[1..] == first[1..] + rest;
      RunJoins(Step(w, first[0]), first[1..], rest);
    }
  }

  lemma RunOfOne(w: World, e: Event)
    ensures Run(w, [e]) == Step(w, e)
  {
    assert [e][1..] == [];
    assert Run(Step(w, e), []) == Step(w, e);
  }

  /** The first state of an occurrence submitted from a row of the schedule table. */
  function Submitted(id: string, row: Schedule, at: int, previous: string, bits: string): Occurrence {
    Occurrence(id, row.generation, row.spec, at, previous, bits,
               if row.failures.windowSize <= 0 then |bits| else row.failures.windowSize, 1, true)
  }

  /** The occurrence a passed preflight submits next: of the schedule's present generation, after
      this one, with the failure window it has just extended. */
  function Successor(job: string, occ: Occurrence, s: Schedule, previousSucceeded: bool, at: int): Occurrence {
    Submitted(occ.schedule, s, at, job, Bits(occ, s, previousSucceeded))
  }

  /** A successor is current: nothing but a later change, its end or its failures can stop it. */
  lemma SuccessorIsCurrent(job: string, occ: Occurrence, s: Schedule, p: bool, at: int, q: bool)
    requires occ.chapters <= 1 && Preflight(occ, Some(s), p).HandOver? && (s.endAt.Some? ==> at <= s.endAt.value)
    requires job != ""
    ensures
      var next := Successor(job, occ, s, p, at);
      Preflight(next, Some(s), q) == HandOver <==> !Violates(AppendBit(Bits(occ, s, p), q, Window(next, s)), s.failures)
  {
  }

  /** The tables with the transactions on them.  `history` is the run that led here, so whatever
      holds of every run holds of every state of this object. */
  class ScheduleTable {
    var schedules: map<string, Schedule>
    var occurrences: map<string, Occurrence>
    ghost var history: seq<Event>

    ghost predicate Valid()
      reads this
    {
      World(schedules, occurrences) == Run(NOTHING, history)
    }

    constructor ()
      ensures Valid() && schedules == map[] && occurrences == map[] && history == []
    {
      schedules, occurrences, history := map[], map[], [];
    }

    /** Adds to the history an event whose effect the tables already show. */
    ghost method Remember(before: World, e: Event)
      requires before == Run(NOTHING, history) && World(schedules, occurrences) == Step(before, e)
      modifies this`history
      ensures Valid() && history == old(history) + [e]
    {
      RunOfOne(before, e);
      RunJoins(NOTHING, history, [e]);
      history := history + [e];
    }

    /** The row may have been read before the latest change. */
    method SubmitScheduledOccurrence(job: string, id: string, row: Schedule, at: int, previous: string, bits: string)
      requires Valid() && id in schedules && row.generation <= schedules[id].generation
      modifies this
      ensures Valid() && schedules == old(schedules)
      ensures history == old(history) + [Submit(job, id, row.generation, row.spec, at, previous, bits,
                                                row.failures.windowSize)]
      ensures occurrences ==
        if job in old(occurrences) then old(occurrences)
        else old(occurrences)[job := Submitted(id, row, at, previous, bits)]
    {
      ghost var before := World(schedules, occurrences);
      if job !in occurrences {
        var window := row.failures.windowSize;
        if window <= 0 {
          window := |bits|;
        }
        var occ := Occurrence(id, row.generation, row.spec, at, previous, bits, window, 1, true);
        occurrences := occurrences[job := occ];
      }
      Remember(before, Submit(job, id, row.generation, row.spec, at, previous, bits, row.failures.windowSize));
    }

    /** The tests of a preflight on the row of its schedule, with the failure window they end on. */
    method Examine(occ: Occurrence, row: Schedule, previousSucceeded: bool) returns (bits: string, refused: bool)
      requires occ.chapters <= 1
      ensures bits == Bits(occ, row, previousSucceeded)
      ensures refused <==> Preflight(occ, Some(row), previousSucceeded).CancelFor?
    {
      hide Violates, AppendBit;
      bits := occ.bits;
      if occ.previous != "" {
        var window := row.failures.windowSize;
        if window <= 0 {
          window := occ.window;
        }
        bits := AppendBit(bits, previousSucceeded, window);
      }
      var violated := FailurePolicyViolated(bits, row.failures);
      refused := || row.state != Active || row.generation != occ.generation || row.spec != occ.spec
                 || (row.endAt.Some? && occ.scheduledAt > row.endAt.value) || violated;
    }

    /** Decides on a leased occurrence, archives it or submits the next one.  `next` is the id and
        the time of the next fire, if there is one. */
    method PreflightScheduleLease(job: string, previousSucceeded: bool, next: Option<(string, int)>) returns (ok: bool)
      requires Valid() && job in occurrences
      modifies this
      ensures Valid() && schedules == old(schedules)
      ensures
        var occ := old(occurrences)[job];
        var verdict := Preflight(occ, Find(schedules, occ.schedule), previousSucceeded);
        && ok == verdict.HandOver?
        && occurrences ==
             if verdict.CancelFor? then old(occurrences)[job := Cancelled(occ)]
             else if occ.chapters > 1 || next.None? || next.value.0 in old(occurrences) then old(occurrences)
             else old(occurrences)[next.value.0 := Successor(job, occ, schedules[occ.schedule], previousSucceeded,
                                                             next.value.1)]
      ensures old(history) + [Lease(job, previousSucceeded, Completes)] <= history
    {
      hide Run, Changed, Bits, Violates;
      var occ := occurrences[job];
      if occ.chapters > 1 {
        Remember(World(schedules, occurrences), Lease(job, previousSucceeded, Completes));
        return true;
      }
      if occ.schedule !in schedules {
        CancelScheduledLease(job, previousSucceeded);
        return false;
      }
      var row := schedules[occ.schedule];
      var bits, refused := Examine(occ, row, previousSucceeded);
      if refused {
        CancelScheduledLease(job, previousSucceeded);
        return false;
      }
      Remember(World(schedules, occurrences), Lease(job, previousSucceeded, Completes));
      if next.Some? {
        SubmitScheduledOccurrence(next.value.0, occ.schedule, row, next.value.1, job, bits);
      }
      return true;
    }

    /** Saves the outcome chapter at ordinal 1 if it is not there, and archives the job, all under
        its lease: of a job that is closed already nothing changes. */
    method CancelScheduledLease(job: string, previousSucceeded: bool)
      requires Valid() && job in occurrences
      requires Preflight(occurrences[job], Find(schedules, occurrences[job].schedule), previousSucceeded).CancelFor?
      modifies this
      ensures Valid() && schedules == old(schedules)
      ensures occurrences == old(occurrences)[job := Cancelled(old(occurrences)[job])]
      ensures history == old(history) + [Lease(job, previousSucceeded, Completes)]
    {
      ghost var before := World(schedules, occurrences);
      var occ := occurrences[job];
      if occ.open {
        var chapters := occ.chapters;
        if chapters == 1 {
          chapters := 2;
        }
        occurrences := occurrences[job := occ.(chapters := chapters, open := false)];
      }
      assert occurrences == before.occurrences[job := Cancelled(occ)];
      Remember(before, Lease(job, previousSucceeded, Completes));
    }

    method UpsertSchedule(id: string, spec: string, endAt: Option<int>, failures: FailurePolicy, paused: bool,
        expected: Option<int>)
      returns (row: Option<Schedule>)
      requires Valid()
      modifies this
      ensures Valid() && occurrences == old(occurrences)
      ensures history == old(history) + [Edit(id, Upsert(spec, endAt, failures, paused, expected))]
      ensures row == Changed(Find(old(schedules), id), Upsert(spec, endAt, failures, paused, expected))
      ensures schedules == if row.Some? then old(schedules)[id := row.value] else old(schedules)
    {
      ghost var before := World(schedules, occurrences);
      ghost var e := Edit(id, Upsert(spec, endAt, failures, paused, expected));
      if || (id in schedules && schedules[id].state == Archived)
         || (expected.Some? && (id !in schedules || schedules[id].generation != expected.value))
      {
        Remember(before, e);
        return None;
      }
      var generation := 1;
      if id in schedules {
        generation := schedules[id].generation + 1;
      }
      row := Some(Schedule(if paused then Paused else Active, generation, spec, endAt, failures));
      schedules := schedules[id := row.value];
      Remember(before, e);
    }

    method MutateScheduleState(id: string, state: State, expected: Option<int>) returns (row: Option<Schedule>)
      requires Valid()
      modifies this
      ensures Valid() && occurrences == old(occurrences)
      ensures history == old(history) + [Edit(id, SetState(state, expected))]
      ensures row == Changed(Find(old(schedules), id), SetState(state, expected))
      ensures schedules == if row.Some? then old(schedules)[id := row.value] else old(schedules)
    {
      ghost var before := World(schedules, occurrences);
      ghost var e := Edit(id, SetState(state, expected));
      row := None;
      if id in schedules {
        var existing := schedules[id];
        if || (expected.Some? && existing.generation != expected.value)
           || (existing.state == Archived && state != Archived)
        {
          Remember(before, e);
          return None;
        }
        row := Some(existing.(state := state, generation := existing.generation + 1));
        schedules := schedules[id := row.value];
      }
      Remember(before, e);
    }
  }
}
