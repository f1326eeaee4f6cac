/**
 `GetJobRun` (pkg/jobdb/job_run_runtime.go): a reader that regroups a job's flat log into job
 attempts, task runs and task attempts.  On every log a job's visits leave it undoes the
 flattening: the job attempts and `DoTask` calls of module History come back one for one.
 */
module JobRun {
  import opened Retry
  import opened Chapters
  import opened Runner
  import Resume
  import opened History

  datatype Entry = Entry(ordinal: nat, chapter: Chapter)

  datatype TaskRun = TaskRun(task: string, first: nat, attempts: seq<Entry>)

  datatype JobAttempt = JobAttempt(number: nat, outcome: Option<Entry>, tasks: seq<TaskRun>)

  const RESTART_EXTRA_TASK := "__restart_extra__"

  function TaskOf(ch: Chapter): string {
    if ch.TaskOutcome? then ch.task else RESTART_EXTRA_TASK
  }

  /** What has been grouped so far: the job attempts seen, the number of the one under way, and
      whether its last task run may still take another attempt. */
  datatype Grouping = Grouping(attempts: seq<JobAttempt>, active: nat, running: bool)

  /** Where the job attempt numbered `number` stands, or the end if there is none. */
  function Find(attempts: seq<JobAttempt>, number: nat): (i: nat)
    ensures i <= |attempts|
    ensures i < |attempts| ==> attempts[i].number == number
  {
    if attempts == [] || attempts[0].number == number then 0 else 1 + Find(attempts[1..], number)
  }

  function Ensure(attempts: seq<JobAttempt>, number: nat): (r: seq<JobAttempt>)
    ensures Find(attempts, number) < |r| && r[Find(attempts, number)].number == number
  {
    if Find(attempts, number) < |attempts| then attempts else attempts + [JobAttempt(number, None, [])]
  }

  function TakeTask(tasks: seq<TaskRun>, extend: bool, e: Entry): seq<TaskRun> {
    if extend && tasks != [] then
      var last := tasks[|tasks| - 1];
      tasks[..|tasks| - 1] + [last.(attempts := last.attempts + [e])]
    else tasks + [TaskRun(TaskOf(e.chapter), e.ordinal, [e])]
  }

  /** One chapter after the start chapter; None is a chapter no job's log may hold there. */
  function Take(g: Grouping, e: Entry): Option<Grouping> {
    match e.chapter
    case JobStart(_, _, _) => None
    case JobOutcome(_, attempt, _) =>
      var n := AttemptOf(attempt);
      var attempts := Ensure(g.attempts, n);
      var i := Find(g.attempts, n);
      Some(Grouping(attempts[i := attempts[i].(outcome := Some(e))], n + 1, false))
    case _ =>
      var attempts := Ensure(g.attempts, g.active);
      var i := Find(g.attempts, g.active);
      var tasks := attempts[i].tasks;
      var extend := g.running && AttemptOf(e.chapter.attempt) > 1 && tasks != []
        && tasks[|tasks| - 1].task == TaskOf(e.chapter);
      Some(Grouping(attempts[i := attempts[i].(tasks := TakeTask(tasks, extend, e))], g.active, true))
  }

  /** The chapters of the log from `ordinal` on. */
  function TakeFrom(g: Grouping, log: seq<Chapter>, ordinal: nat): Option<Grouping>
    decreases |log| - ordinal
  {
    if ordinal >= |log| then Some(g)
    else match Take(g, Entry(ordinal, log[ordinal]))
      case None => None
      case Some(next) => TakeFrom(next, log, ordinal + 1)
  }

  const STARTED := Grouping([JobAttempt(1, None, [])], 1, false)

  /** None is the error the reader returns for a log it cannot group. */
  function Grouped(log: seq<Chapter>): Option<seq<JobAttempt>> {
    if log == [] then Some([])
    else if !log[0].JobStart? then None
    else match TakeFrom(STARTED, log, 1)
      case None => None
      case Some(g) => Some(g.attempts)
  }

  /** The output a restart inserts is a task run of its own, under a name no task has. */
  lemma ExtraIsARunOfItsOwn(g: Grouping, n: nat, hash: string, o: Outcome)
    requires Find(g.attempts, g.active) < |g.attempts|
    ensures
      var e := Entry(n, RestartExtra(hash, 1, o));
      var taken := Take(g, e);
      var i := Find(g.attempts, g.active);
      && taken.Some? && taken.value.active == g.active && taken.value.running
      && taken.value.attempts ==
           g.attempts[i := g.attempts[i].(tasks := g.attempts[i].tasks + [TaskRun("__restart_extra__", n, [e])])]
  {
  }

  /** A second start chapter makes a log unreadable, and so does any first chapter but one. */
  lemma StartsOnce(g: Grouping, n: nat, start: Chapter, log: seq<Chapter>)
    ensures start.JobStart? ==> Take(g, Entry(n, start)) == None
    ensures log != [] && !log[0].JobStart? ==> Grouped(log) == None
    ensures Grouped([]) == Some([])
    ensures start.JobStart? ==> Grouped([start]) == Some([JobAttempt(1, None, [])])
  {
  }

  lemma FindAppended(attempts: seq<JobAttempt>, a: JobAttempt, n: nat)
    ensures Find(attempts + [a], n) ==
      if Find(attempts, n) < |attempts| then Find(attempts, n)
      else if a.number == n then |attempts| else |attempts| + 1
  {
    if attempts != [] {
      assert (attempts + [a])[1..] == attempts[1..] + [a];
    }
  }

  lemma {:induction false} FindUpdated(attempts: seq<JobAttempt>, i: nat, a: JobAttempt, n: nat)
    requires i < |attempts| && a.number == attempts[i].number
    ensures Find(attempts[i := a], n) == Find(attempts, n)
    decreases |attempts|
  {
    if i > 0 {
      assert attempts[i := a][1..] == attempts[1..][i - 1 := a];
      FindUpdated(attempts[1..], i - 1, a, n);
    } else {
      assert attempts[i := a][1..] == attempts[1..];
    }
  }

  /** The variables of the chapter loop. */
  class Reader {
    var attempts: seq<JobAttempt>
    var attemptIndex: map<nat, nat>
    var activeAttempt: nat
    var currentAttempt: nat
    var currentRunIdx: int

    ghost function Snapshot(): Grouping
      reads this
    {
      Grouping(attempts, activeAttempt, currentRunIdx != -1)
    }

    ghost predicate IndexOf(attempts: seq<JobAttempt>, index: map<nat, nat>) {
      && (forall n :: n in index <==> Find(attempts, n) < |attempts|)
      && (forall n :: n in index ==> index[n] == Find(attempts, n))
    }

    /** The index finds every job attempt, and an open task run is the last one of the active
        job attempt. */
    ghost predicate Valid()
      reads this
    {
      && IndexOf(attempts, attemptIndex)
      && activeAttempt >= 1 && currentRunIdx >= -1
      && (currentRunIdx != -1 ==>
            && currentAttempt == activeAttempt && activeAttempt in attemptIndex
            && currentRunIdx == |attempts[Find(attempts, activeAttempt)].tasks| - 1)
    }

    constructor ()
      ensures Valid() && Snapshot() == STARTED
    {
      attempts, attemptIndex := [JobAttempt(1, None, [])], map[1 := 0];
      activeAttempt, currentAttempt, currentRunIdx := 1, 0, -1;
    }

    method EnsureAttempt(number: nat) returns (idx: nat)
      requires IndexOf(attempts, attemptIndex)
      modifies this`attempts, this`attemptIndex
      ensures IndexOf(attempts, attemptIndex) && number in attemptIndex
      ensures attempts == Ensure(old(attempts), number)
      ensures idx == Find(attempts, number) == Find(old(attempts), number)
    {
      if number in attemptIndex {
        return attemptIndex[number];
      }
      ghost var before := attempts;
      var attempt := JobAttempt(number, None, []);
      forall n: nat
        ensures Find(before + [attempt], n) ==
          if Find(before, n) < |before| then Find(before, n) else if attempt.number == n then |before| else |before| + 1
      {
        FindAppended(before, attempt, n);
      }
      attempts := attempts + [attempt];
      idx := |attempts| - 1;
      attemptIndex := attemptIndex[number := idx];
    }

    method Replace(idx: nat, attempt: JobAttempt)
      requires IndexOf(attempts, attemptIndex)
      requires idx < |attempts| && attempt.number == attempts[idx].number
      modifies this`attempts
      ensures attempts == old(attempts)[idx := attempt]
      ensures IndexOf(attempts, attemptIndex)
      ensures forall n: nat :: Find(attempts, n) == Find(old(attempts), n)
    {
      ghost var before := attempts;
      forall n: nat
        ensures Find(before[idx := attempt], n) == Find(before, n)
      {
        FindUpdated(before, idx, attempt, n);
      }
      attempts := attempts[idx := attempt];
    }

    method TakeJobOutcome(e: Entry)
      requires Valid() && e.chapter.JobOutcome?
      modifies this
      ensures Valid() && Take(old(Snapshot()), e) == Some(Snapshot())
    {
      var number := AttemptOf(e.chapter.attempt);
      var idx := EnsureAttempt(number);
      Replace(idx, attempts[idx].(outcome := Some(e)));
      activeAttempt, currentAttempt, currentRunIdx := number + 1, 0, -1;
    }

    /** Adds an attempt to the open task run, or to a new one. */
    method AddToRun(tasks: seq<TaskRun>, e: Entry) returns (r: seq<TaskRun>)
      requires e.chapter.TaskOutcome? || e.chapter.RestartExtra?
      requires currentRunIdx != -1 ==> tasks != [] && currentRunIdx == |tasks| - 1
      modifies this`currentRunIdx
      ensures
        var extend := old(currentRunIdx) != -1 && AttemptOf(e.chapter.attempt) > 1
          && tasks[|tasks| - 1].task == TaskOf(e.chapter);
        r == TakeTask(tasks, extend, e)
      ensures r != [] && currentRunIdx == |r| - 1
    {
      r := tasks;
      if currentRunIdx == -1 || AttemptOf(e.chapter.attempt) <= 1 || r[currentRunIdx].task != TaskOf(e.chapter) {
        r := r + [TaskRun(TaskOf(e.chapter), e.ordinal, [])];
        currentRunIdx := |r| - 1;
      }
      var run := r[currentRunIdx];
      assert [] + [e] == [e];
      r := r[currentRunIdx := run.(attempts := run.attempts + [e])];
    }

    method TakeTaskOutcome(e: Entry)
      requires Valid() && (e.chapter.TaskOutcome? || e.chapter.RestartExtra?)
      modifies this
      ensures Valid() && Take(old(Snapshot()), e) == Some(Snapshot())
    {
      var idx := EnsureAttempt(activeAttempt);
      if currentAttempt != activeAttempt {
        currentAttempt, currentRunIdx := activeAttempt, -1;
      }
      var tasks := AddToRun(attempts[idx].tasks, e);
      Replace(idx, attempts[idx].(tasks := tasks));
    }

    method TakeChapter(e: Entry) returns (ok: bool)
      requires Valid()
      modifies this
      ensures ok <==> Take(old(Snapshot()), e).Some?
      ensures ok ==> Valid() && Take(old(Snapshot()), e) == Some(Snapshot())
    {
      ok := !e.chapter.JobStart?;
      if e.chapter.JobOutcome? {
        TakeJobOutcome(e);
      } else if ok {
        TakeTaskOutcome(e);
      }
    }
  }

  /** The chapter loop. */
  method GetJobRun(log: seq<Chapter>) returns (attempts: Option<seq<JobAttempt>>)
    ensures attempts == Grouped(log)
  {
    if log == [] { return Some([]); }
    if !log[0].JobStart? { return None; }
    var reader := new Reader();
    var ordinal := 1;
    while ordinal < |log|
      invariant 1 <= ordinal <= |log|
      invariant fresh(reader) && reader.Valid()
      invariant TakeFrom(reader.Snapshot(), log, ordinal) == TakeFrom(STARTED, log, 1)
    {
      var ok := reader.TakeChapter(Entry(ordinal, log[ordinal]));
      if !ok { return None; }
      ordinal := ordinal + 1;
    }
    return Some(reader.attempts);
  }
}
