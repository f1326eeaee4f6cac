/**
 The chapter store as the object it is: operations composed of row transactions, the loop that
 walks the links, and the pager that reads a whole story.
 */
module ChapterStores {
  import opened Retry
  import opened Chapters
  import opened Stories
  import opened PlainStories

  const DEFAULT_PAGE_SIZE: nat := 100

  class ChapterStore {
    var rows: Rows

    constructor ()
      ensures rows == NOTHING
    {
      rows := NOTHING;
    }

    /** Two transactions: a crash or a refused chapter between them leaves an empty story. */
    method CreateStory(key: Key, initial: Option<Chapter>) returns (failure: Option<Failure>)
      modifies this
      ensures
        match Create(old(rows), key)
        case Err(e) => failure == Some(e) && rows == old(rows)
        case Done(created) =>
          if initial.None? then failure == None && rows == created
          else match Append(created, key, 0, initial.value)
            case Err(e) => failure == Some(e) && rows == created
            case Done(appended) => failure == None && rows == appended
    {
      match Create(rows, key)
      case Err(e) => return Some(e);
      case Done(created) =>
        rows := created;
        if initial.Some? {
          match Append(rows, key, 0, initial.value)
          case Err(e) => return Some(e);
          case Done(appended) => rows := appended;
        }
        return None;
    }

    method SaveChapter(key: Key, ordinal: int, body: Chapter) returns (failure: Option<Failure>)
      modifies this
      ensures
        var at := if ordinal < 0 && Active(old(rows), key) then old(rows).stories[key].latest + 1 else ordinal;
        match Append(old(rows), key, at, body)
        case Err(e) => failure == Some(e) && rows == old(rows)
        case Done(appended) => failure == None && rows == appended
    {
      var at := ordinal;
      if at < 0 {
        if !Active(rows, key) { return Some(StoryNotFound); }
        at := rows.stories[key].latest + 1;
      }
      match Append(rows, key, at, body)
      case Err(e) => return Some(e);
      case Done(appended) =>
        rows := appended;
        return None;
    }

    /** `lastOrdinal` below zero clones everything the source has. */
    method CloneStory(source: Key, dest: Key, lastOrdinal: int, next: Option<Chapter>)
      returns (failure: Option<Failure>)
      modifies this
      ensures
        var latest := if Active(old(rows), source) then old(rows).stories[source].latest else -1;
        var fork := if lastOrdinal < 0 then latest else lastOrdinal;
        if !Active(old(rows), source) then failure == Some(StoryNotFound) && rows == old(rows)
        else if !(0 <= fork <= latest) then failure == Some(InvalidRecord) && rows == old(rows)
        else match CreateLinked(old(rows), dest, Link(source, fork))
          case Err(e) => failure == Some(e) && rows == old(rows)
          case Done(linked) =>
            if next.None? then failure == None && rows == linked
            else match Append(linked, dest, fork + 1, next.value)
              case Err(e) => failure == Some(e) && rows == linked
              case Done(appended) => failure == None && rows == appended
    {
      if !Active(rows, source) { return Some(StoryNotFound); }
      var fork := lastOrdinal;
      if fork < 0 {
        fork := rows.stories[source].latest;
      }
      if fork < 0 || fork > rows.stories[source].latest { return Some(InvalidRecord); }
      match CreateLinked(rows, dest, Link(source, fork))
      case Err(e) => return Some(e);
      case Done(linked) =>
        rows := linked;
        if next.Some? {
          match Append(rows, dest, fork + 1, next.value)
          case Err(e) => return Some(e);
          case Done(appended) => rows := appended;
        }
        return None;
    }

    /** Walks from the story to the owner of the ordinal. */
    method ResolveLinkedOrdinal(key: Key, ordinal: int) returns (owner: Stories.Result<Key>)
      requires key in rows.stories
      ensures owner == Resolve(rows, key, ordinal, MAX_LINK_DEPTH)
    {
      var at := key;
      var depth: nat := 0;
      while depth < MAX_LINK_DEPTH
        invariant depth <= MAX_LINK_DEPTH && at in rows.stories
        invariant Resolve(rows, at, ordinal, MAX_LINK_DEPTH - depth) == Resolve(rows, key, ordinal, MAX_LINK_DEPTH)
      {
        var story := rows.stories[at];
        if ordinal < 0 || ordinal > story.latest { return Err(ChapterNotFound); }
        if story.link.None? || ordinal > story.link.value.fork { return Done(at); }
        if story.link.value.base !in rows.stories { return Err(StoryNotFound); }
        at := story.link.value.base;
        depth := depth + 1;
      }
      return Err(TooDeep);
    }

    method Chapter(key: Key, selector: int) returns (r: Stories.Result<Chapter>)
      ensures r == Read(rows, key, selector)
    {
      if !Active(rows, key) { return Err(StoryNotFound); }
      var target := selector;
      if selector < 0 {
        if rows.stories[key].latest < 0 { return Err(ChapterNotFound); }
        target := rows.stories[key].latest + selector + 1;
      }
      var owner := ResolveLinkedOrdinal(key, target);
      match owner
      case Err(e) => return Err(e);
      case Done(o) =>
        if (o, target) !in rows.chapters { return Err(ChapterNotFound); }
        return Done(rows.chapters[(o, target)]);
    }

    /** The check a repeated restart request makes against the story it finds: every kept chapter
        reads the same in both stories, and nothing was inserted behind them. */
    method CompareRestartStoryPrefix(source: Key, target: Key, lastStepToKeep: nat) returns (same: bool)
      ensures same <==> SamePrefix(rows, source, target, lastStepToKeep)
    {
      var ordinal := 0;
      while ordinal <= lastStepToKeep
        invariant 0 <= ordinal <= lastStepToKeep + 1
        invariant forall k :: 0 <= k < ordinal ==>
          Read(rows, source, k).Done? && Read(rows, target, k) == Read(rows, source, k)
      {
        var a := Chapter(source, ordinal);
        if a.Err? { return false; }
        var b := Chapter(target, ordinal);
        if b.Err? { return false; }
        if a.value != b.value { return false; }
        ordinal := ordinal + 1;
      }
      var next := Chapter(target, lastStepToKeep + 1);
      match next
      case Err(e) => return e.ChapterNotFound? || e.StoryNotFound?;
      case Done(ch) => return !ch.RestartExtra?;
    }

    /** One page: up to `size` ordinals from `start` on, and where the next page starts. */
    method Page(key: Key, start: nat, size: nat, latest: int)
      returns (page: Stories.Result<seq<Chapter>>, next: Option<nat>)
      requires size > 0
      ensures page.Done? ==>
        && (forall i :: 0 <= i < |page.value| ==> Read(rows, key, start + i) == Done(page.value[i]))
        && (if next.Some? then next.value == start + |page.value| <= latest && page.value != []
            else start + |page.value| == if start <= latest then latest + 1 else start)
      ensures page.Done? ==>
        |page.value| == (if start > latest then 0 else if latest + 1 - start > size then size else latest + 1 - start)
      ensures page.Err? ==>
        exists k :: start <= k <= latest && k < start + size && Read(rows, key, k) == Err(page.failure)
    {
      var items := [];
      var ordinal := start;
      while ordinal <= latest && |items| < size
        invariant ordinal == start + |items| && (start <= latest ==> ordinal <= latest + 1) && |items| <= size
        invariant start > latest ==> items == []
        invariant forall i :: 0 <= i < |items| ==> Read(rows, key, start + i) == Done(items[i])
        decreases latest - ordinal
      {
        var ch := Chapter(key, ordinal);
        if ch.Err? { return Err(ch.failure), None; }
        items := items + [ch.value];
        ordinal := ordinal + 1;
      }
      return Done(items), if items == [] || ordinal - 1 >= latest then None else Some(ordinal);
    }

    /** Reading a story page by page from its start gives every ordinal once, in order. */
    method AllChapters(key: Key, pageSize: int) returns (all: Stories.Result<seq<Chapter>>)
      ensures all.Done? ==>
        Active(rows, key) && |all.value| == (if rows.stories[key].latest < 0 then 0 else rows.stories[key].latest + 1)
      ensures all.Done? ==> forall k :: 0 <= k < |all.value| ==> Read(rows, key, k) == Done(all.value[k])
      ensures all.Err? ==>
        !Active(rows, key) || exists k :: 0 <= k <= rows.stories[key].latest && Read(rows, key, k).Err?
    {
      if !Active(rows, key) { return Err(StoryNotFound); }
      var latest := rows.stories[key].latest;
      var size: nat := if pageSize <= 0 then DEFAULT_PAGE_SIZE else pageSize;
      var items := [];
      var start: Option<nat> := Some(0);
      while start.Some?
        invariant start.Some? ==> start.value == |items| && (|items| == 0 || |items| <= latest)
        invariant start.None? ==> |items| == if latest < 0 then 0 else latest + 1
        invariant forall k :: 0 <= k < |items| ==> Read(rows, key, k) == Done(items[k])
        decreases start.Some?, latest - |items|
      {
        var page, next := Page(key, start.value, size, latest);
        if page.Err? { return Err(page.failure); }
        assert forall i :: 0 <= i < |page.value| ==> Read(rows, key, |items| + i) == Done(page.value[i]);
        ghost var before := |items|;
        items := items + page.value;
        assert forall k :: before <= k < |items| ==> Read(rows, key, before + (k - before)) == Done(items[k]);
        start := next;
      }
      return Done(items);
    }
  }

  /** No extra output was asked for. */
  ghost predicate SamePrefix(r: Rows, source: Key, target: Key, lastStepToKeep: nat) {
    && (forall k :: 0 <= k <= lastStepToKeep ==> Read(r, source, k).Done? && Read(r, target, k) == Read(r, source, k))
    && match Read(r, target, lastStepToKeep + 1)
       case Done(ch) => !ch.RestartExtra?
       case Err(e) => e.ChapterNotFound? || e.StoryNotFound?
  }

  /** In every reachable store a clone reads as the prefix it was forked from, as far as the
      link limit allows. */
  lemma CloneReadsAsPrefix(ops: seq<Op>, source: Key, dest: Key, fork: nat, k: nat)
    requires CreateLinked(Run(ops), dest, Link(source, fork)).Done? && k <= fork && Active(Run(ops), source)
    ensures
      var cloned := CreateLinked(Run(ops), dest, Link(source, fork)).value;
      && (Read(Run(ops), source, k).Done? || Read(Run(ops), source, k) == Err(TooDeep))
      && (Read(cloned, dest, k) == Read(Run(ops), source, k) || Read(cloned, dest, k) == Err(TooDeep))
      && Read(cloned, dest, fork + 1) == Err(ChapterNotFound)
  {
    var r, p := Run(ops), ShelveAll(ops);
    var op := DoLink(dest, Link(source, fork));
    RunRefines(ops);
    BookOf(r, p, source);
    BookOf(r, p, dest);
    StepRefines(r, p, op);
    ReadRefines(r, p, source, k);
    ReadRefines(Apply(r, op), Shelve(p, op), dest, k);
    ReadRefines(Apply(r, op), Shelve(p, op), dest, fork + 1);
    assert Shelve(p, op)[dest] == Copied(p[source], fork);
    assert p[source].hops[..fork + 1][k] == p[source].hops[k];
  }

  lemma RunAppends(ops: seq<Op>, op: Op)
    ensures Run(ops + [op]) == Apply(Run(ops), op)
  {
    assert (ops + [op])[..|ops|] == ops;
  }

  /** A restart may be asked for again at any later time: whatever has happened to the two
      stories, while both are active the prefix still compares equal, so the request is refused
      only if extra output stands behind the cut or the chain of links became unreadable. */
  lemma RepeatedRestartAgrees(ops: seq<Op>, source: Key, dest: Key, k: nat, more: seq<Op>)
    requires Active(Run(ops), source) && CreateLinked(Run(ops), dest, Link(source, k)).Done?
    requires
      var cloned := ops + [DoLink(dest, Link(source, k))];
      && Active(Run(cloned + more), source) && Active(Run(cloned + more), dest)
      && (forall n :: 0 <= n <= k ==> Read(Run(cloned), dest, n) != Err(TooDeep))
    ensures
      var r := Run(ops + [DoLink(dest, Link(source, k))] + more);
      && (forall n :: 0 <= n <= k ==> Read(r, source, n).Done? && Read(r, dest, n) == Read(r, source, n))
      && (SamePrefix(r, source, dest, k) <==>
            match Read(r, dest, k + 1)
            case Done(ch) => !ch.RestartExtra?
            case Err(e) => e.ChapterNotFound? || e.StoryNotFound?)
  {
    var op := DoLink(dest, Link(source, k));
    var cloned := ops + [op];
    RunAppends(ops, op);
    forall n | 0 <= n <= k
      ensures Read(Run(cloned + more), source, n).Done?
      ensures Read(Run(cloned + more), dest, n) == Read(Run(cloned + more), source, n)
    {
      CloneReadsAsPrefix(ops, source, dest, k, n);
      LaterOpsNeverDisturb(ops, [op] + more, source, n);
      assert ops + ([op] + more) == cloned + more;
      LaterOpsNeverDisturb(cloned, more, dest, n);
    }
  }
}
