/**
 A restart through the chapter store: the clone inherits exactly the kept prefix, the restarted
 visit's chapters land behind it, and the prior job's story is untouched.
 */
module RestartStory {
  import opened Retry
  import opened Chapters
  import Runner
  import Resume
  import Crash
  import Backoff
  import Restart
  import opened Stories
  import opened PlainStories

  /** Appending log[from..upTo] to a story, one chapter at a time. */
  function Appends(key: Key, log: seq<Chapter>, from: nat, upTo: nat): seq<Op>
    requires upTo <= |log|
    decreases upTo
  {
    if upTo <= from then [] else Appends(key, log, from, upTo - 1) + [DoAppend(key, upTo - 1, log[upTo - 1])]
  }

  lemma {:induction false} AppendsExtend(ops: seq<Op>, key: Key, log: seq<Chapter>, from: nat, upTo: nat)
    requires from <= upTo <= |log|
    requires Open(ShelveAll(ops), key) && !ShelveAll(ops)[key].finalized && ShelveAll(ops)[key].chapters == log[..from]
    ensures
      var p := ShelveAll(ops + Appends(key, log, from, upTo));
      && Open(p, key) && !p[key].finalized && p[key].chapters == log[..upTo]
      && (forall n :: 0 <= n < from ==> p[key].hops[n] == ShelveAll(ops)[key].hops[n])
      && (forall n :: from <= n < upTo ==> p[key].hops[n] == 0)
      && (forall other :: other in ShelveAll(ops) && other != key ==> other in p && p[other] == ShelveAll(ops)[other])
    decreases upTo
  {
    if upTo == from {
      assert ops + [] == ops;
    } else {
      AppendsExtend(ops, key, log, from, upTo - 1);
      var before := ops + Appends(key, log, from, upTo - 1);
      var all := ops + Appends(key, log, from, upTo);
      assert all[..|all| - 1] == before && all[|all| - 1] == DoAppend(key, upTo - 1, log[upTo - 1]);
      assert log[..upTo - 1] + [log[upTo - 1]] == log[..upTo];
    }
  }

  /** The story, read through its links, is exactly this log. */
  ghost predicate ReadsAs(r: Rows, key: Key, log: seq<Chapter>) {
    && Active(r, key)
    && (forall n: nat :: n < |log| ==> Read(r, key, n) == Done(log[n]))
    && Read(r, key, |log|) == Err(ChapterNotFound)
  }

  lemma ReadsAtCopied(ops: seq<Op>, key: Key, n: nat, ch: Chapter)
    requires Read(Run(ops), key, n) == Done(ch)
    ensures
      var p := ShelveAll(ops);
      && Open(p, key) && n < |p[key].chapters| && p[key].chapters[n] == ch && p[key].hops[n] < MAX_LINK_DEPTH
      && (Resolve(Run(ops), key, n, MAX_LINK_DEPTH - 1).Err? <==> p[key].hops[n] + 1 >= MAX_LINK_DEPTH)
  {
    hide Refines, Resolve, Read, Run, ShelveAll;
    LinkedReadsAreCopiedReads(ops, key, n);
    RunRefines(ops);
    ResolveFinds(Run(ops), ShelveAll(ops), key, n, MAX_LINK_DEPTH - 1);
  }

  lemma ReadsAsCopied(ops: seq<Op>, key: Key, log: seq<Chapter>)
    requires ReadsAs(Run(ops), key, log)
    ensures
      var p := ShelveAll(ops);
      && Open(p, key) && p[key].chapters == log
      && (forall n :: 0 <= n < |log| ==> p[key].hops[n] < MAX_LINK_DEPTH)
      && (forall n :: 0 <= n < |log| ==>
            (Resolve(Run(ops), key, n, MAX_LINK_DEPTH - 1).Err? <==> p[key].hops[n] + 1 >= MAX_LINK_DEPTH))
  {
    hide Refines, Resolve, Read, Run, ShelveAll;
    var p := ShelveAll(ops);
    RunRefines(ops);
    BookOf(Run(ops), p, key);
    LinkedReadsAreCopiedReads(ops, key, |log|);
    forall n: nat | n < |log|
      ensures n < |p[key].chapters| && p[key].chapters[n] == log[n] && p[key].hops[n] < MAX_LINK_DEPTH
      ensures Resolve(Run(ops), key, n, MAX_LINK_DEPTH - 1).Err? <==> p[key].hops[n] + 1 >= MAX_LINK_DEPTH
    {
      ReadsAtCopied(ops, key, n, log[n]);
    }
    assert PlainRead(p, key, |log|) == Err(ChapterNotFound);
    assert |p[key].chapters| <= |log|;
    if log != [] { ReadsAtCopied(ops, key, |log| - 1, log[|log| - 1]); }
  }

  /** What the prior and the new story hold after a clone at k and the appends behind it. */
  lemma CloneThenAppend(ops: seq<Op>, source: Key, dest: Key, prior: seq<Chapter>, k: nat, log: seq<Chapter>)
    requires Open(ShelveAll(ops), source) && ShelveAll(ops)[source].chapters == prior && dest !in ShelveAll(ops)
    requires k < |prior| && k < |log| && log[..k + 1] == prior[..k + 1]
    ensures
      var cloned := ops + [DoLink(dest, Link(source, k))];
      var after := ShelveAll(cloned + Appends(dest, log, k + 1, |log|));
      && Open(after, dest) && after[dest].chapters == log
      && (forall n :: 0 <= n <= k ==> after[dest].hops[n] == ShelveAll(ops)[source].hops[n] + 1)
      && (forall n :: k < n < |log| ==> after[dest].hops[n] == 0)
      && source in after && after[source] == ShelveAll(ops)[source]
  {
    var cloned := ops + [DoLink(dest, Link(source, k))];
    assert cloned[..|cloned| - 1] == ops;
    assert ShelveAll(cloned)[dest] == Copied(ShelveAll(ops)[source], k);
    assert forall n :: 0 <= n <= k ==> ShelveAll(ops)[source].hops[..k + 1][n] == ShelveAll(ops)[source].hops[n];
    AppendsExtend(cloned, dest, log, k + 1, |log|);
    assert log[..|log|] == log;
  }

  /** A job whose story `source` reads, through whatever links, as a log that visits and earlier
      restarts left is restarted into the free story `dest`.  After cloning at an accepted cut and
      recording what the restarted visit writes, `dest` reads as the whole restarted log, except
      that a kept chapter whose owner is already as many links away as a reader may cross cannot be
      read; `source` still reads as the prior log.  The restarted log is again one that can be
      restarted. */
  lemma RestartComposition(ops: seq<Op>, source: Key, dest: Key, prior: seq<Chapter>, c: Runner.Config, start: Chapter,
      k: nat, e: Runner.Env, budget: nat)
    requires !c.replay && start.JobStart? && budget > 0
    requires ReadsAs(Run(ops), source, prior) && dest !in Run(ops).stories
    requires Backoff.Reachable(c, start, prior) && Restart.Refused(prior, k).None?
    requires forall n: nat :: n <= k + 1 ==> !e.waiting(n)
    ensures
      var log := Runner.DoJob(c, e, budget, prior[..k + 1]).state.log;
      var after := Run(ops + [DoLink(dest, Link(source, k))] + Appends(dest, log, k + 1, |log|));
      && k + 1 < |log| && Restart.SameStep(prior[k + 1], log[k + 1]) && log[..k + 1] == prior[..k + 1]
      && ReadsAs(after, source, prior)
      && Active(after, dest) && Read(after, dest, |log|) == Err(ChapterNotFound)
      && (forall n: nat :: n < |log| ==>
            Read(after, dest, n) ==
              if n <= k && Resolve(Run(ops), source, n, MAX_LINK_DEPTH - 1).Err? then Err(TooDeep) else Done(log[n]))
      && Backoff.Reachable(c, start, log)
  {
    hide Matches, Runner.DoJob;
    var log := Runner.DoJob(c, e, budget, prior[..k + 1]).state.log;
    RestartOfReachable(c, start, prior, k, e, budget);
    ReadsAsCopied(ops, source, prior);
    RunRefines(ops);
    BookOf(Run(ops), ShelveAll(ops), dest);
    CloneThenAppend(ops, source, dest, prior, k, log);
    var all := ops + [DoLink(dest, Link(source, k))] + Appends(dest, log, k + 1, |log|);
    RunRefines(all);
    BookOf(Run(all), ShelveAll(all), source);
    BookOf(Run(all), ShelveAll(all), dest);
    forall n: nat | n <= |prior| ensures Read(Run(all), source, n) == Read(Run(ops), source, n) {
      LinkedReadsAreCopiedReads(all, source, n);
      LinkedReadsAreCopiedReads(ops, source, n);
    }
    forall n: nat | n <= |log| ensures Read(Run(all), dest, n) == PlainRead(ShelveAll(all), dest, n) {
      LinkedReadsAreCopiedReads(all, dest, n);
    }
  }

  /** A restarted visit over a log that visits and restarts left. */
  lemma RestartOfReachable(c: Runner.Config, start: Chapter, prior: seq<Chapter>, k: nat, e: Runner.Env, budget: nat)
    requires !c.replay && start.JobStart? && budget > 0
    requires Backoff.Reachable(c, start, prior) && Restart.Refused(prior, k).None?
    requires forall n: nat :: n <= k + 1 ==> !e.waiting(n)
    ensures
      var log := Runner.DoJob(c, e, budget, prior[..k + 1]).state.log;
      && k + 1 < |log| && Restart.SameStep(prior[k + 1], log[k + 1]) && log[..k + 1] == prior[..k + 1]
      && Backoff.Reachable(c, start, log)
  {
    hide Runner.DoJob;
    var once: Crash.Plan :| Runner.DoJob(c, once.env, once.budget, [start]).state.log == prior;
    OneVisit(c, once, start);
    Restart.RestartTakesUpTheCut(c, [once], start, k, e, budget);
    var kept := prior[..k + 1];
    var log := Runner.DoJob(c, e, budget, kept).state.log;
    var single := Crash.Plan(Resume.Splice(kept, e), k + budget);
    assert Runner.DoJob(c, single.env, single.budget, [start]).state.log == log;
  }

  lemma OneVisit(c: Runner.Config, once: Crash.Plan, start: Chapter)
    ensures Crash.LastVisit(c, [once], [start]) == Runner.DoJob(c, once.env, once.budget, [start])
  {
    assert [once][..0] == [];
    assert Crash.LogAfter(c, [], [start]) == [start];
  }
}
