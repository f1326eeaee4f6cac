/**
 The chapter store (pkg/jobdb/internal/chapterstore): a story is an append-only list of
 chapters, and a clone inherits a prefix of its source by a link instead of a copy.

 Rows are the two tables behind the store.  A failed operation changes nothing.
 */
module Stories {
  import opened Retry
  import opened Chapters

  datatype Key = Key(anthology: string, story: string)

  datatype Link = Link(base: Key, fork: int)

  /** `latest` is -1 for an empty story; the chapter count is always latest + 1. */
  datatype Story = Story(link: Option<Link>, latest: int, finalized: bool, deleted: bool)

  datatype Rows = Rows(stories: map<Key, Story>, chapters: map<(Key, int), Chapter>)

  datatype Failure =
    | StoryNotFound | StoryExists | StoryFinalized
    | ChapterNotFound | ChapterExists | InvalidRecord | TooDeep

  datatype Result<+T> = Done(value: T) | Err(failure: Failure)

  const NOTHING := Rows(map[], map[])

  predicate Active(r: Rows, key: Key) {
    key in r.stories && !r.stories[key].deleted
  }

  // The row store's own transactions.

  function Create(r: Rows, key: Key): Result<Rows> {
    if key in r.stories then Err(StoryExists)
    else Done(r.(stories := r.stories[key := Story(None, -1, false, false)]))
  }

  function CreateLinked(r: Rows, key: Key, link: Link): Result<Rows> {
    if link.base == key || link.fork < 0 then Err(InvalidRecord)
    else if link.base !in r.stories then Err(StoryNotFound)
    else if link.fork > r.stories[link.base].latest then Err(InvalidRecord)
    else if key in r.stories then Err(StoryExists)
    else Done(r.(stories := r.stories[key := Story(Some(link), link.fork, false, false)]))
  }

  function Append(r: Rows, key: Key, ordinal: int, body: Chapter): Result<Rows> {
    if !Active(r, key) then Err(StoryNotFound)
    else
      var s := r.stories[key];
      if s.finalized then Err(StoryFinalized)
      else if (key, ordinal) in r.chapters then Err(ChapterExists)
      else if ordinal < 0 || ordinal != s.latest + 1 then Err(InvalidRecord)
      else Done(Rows(r.stories[key := s.(latest := ordinal)], r.chapters[(key, ordinal) := body]))
  }

  function Publish(r: Rows, key: Key): Result<Rows> {
    if !Active(r, key) then Err(StoryNotFound)
    else if r.stories[key].finalized then Err(StoryFinalized)
    else Done(r.(stories := r.stories[key := r.stories[key].(finalized := true)]))
  }

  function Tombstone(r: Rows, key: Key): Result<Rows> {
    if !Active(r, key) then Err(StoryNotFound)
    else if !r.stories[key].finalized then Err(InvalidRecord)
    else Done(r.(stories := r.stories[key := r.stories[key].(deleted := true)]))
  }

  // Reading through the links.

  const MAX_LINK_DEPTH: nat := 1024

  /** The story that owns `ordinal`, looking at no more than `depth` stories. */
  function Resolve(r: Rows, key: Key, ordinal: int, depth: nat): Result<Key>
    decreases depth
  {
    if depth == 0 then Err(TooDeep)
    else if key !in r.stories then Err(StoryNotFound)
    else
      var s := r.stories[key];
      if ordinal < 0 || ordinal > s.latest then Err(ChapterNotFound)
      else if s.link.None? || ordinal > s.link.value.fork then Done(key)
      else if s.link.value.base !in r.stories then Err(StoryNotFound)
      else Resolve(r, s.link.value.base, ordinal, depth - 1)
  }

  /** A negative selector counts from the end. */
  function Selected(latest: int, selector: int): Result<int> {
    if selector >= 0 then Done(selector)
    else if latest < 0 then Err(ChapterNotFound)
    else Done(latest + selector + 1)
  }

  function Read(r: Rows, key: Key, selector: int): Result<Chapter> {
    if !Active(r, key) then Err(StoryNotFound)
    else match Selected(r.stories[key].latest, selector)
      case Err(e) => Err(e)
      case Done(ordinal) =>
        match Resolve(r, key, ordinal, MAX_LINK_DEPTH)
        case Err(e) => Err(e)
        case Done(owner) =>
          if (owner, ordinal) in r.chapters then Done(r.chapters[(owner, ordinal)]) else Err(ChapterNotFound)
  }

  // Whole histories.

  datatype Op =
    | DoCreate(key: Key)
    | DoLink(key: Key, link: Link)
    | DoAppend(key: Key, ordinal: int, body: Chapter)
    | DoPublish(key: Key)
    | DoTombstone(key: Key)

  function Attempt(r: Rows, op: Op): Result<Rows> {
    match op
    case DoCreate(key) => Create(r, key)
    case DoLink(key, link) => CreateLinked(r, key, link)
    case DoAppend(key, ordinal, body) => Append(r, key, ordinal, body)
    case DoPublish(key) => Publish(r, key)
    case DoTombstone(key) => Tombstone(r, key)
  }

  function Apply(r: Rows, op: Op): Rows {
    match Attempt(r, op)
    case Done(r') => r'
    case Err(_) => r
  }

  function Run(ops: seq<Op>): Rows {
    if ops == [] then NOTHING else Apply(Run(ops[..|ops| - 1]), ops[|ops| - 1])
  }
}

/**
 What the store is for: stories as plain sequences, where a clone is a copy.  `hops` records
 how many links a reader crosses to the owner of each ordinal, and `depth` how long the
 story's whole chain of links is.
 */
module PlainStories {
  import opened Retry
  import opened Chapters
  import opened Stories

  datatype Book = Book(chapters: seq<Chapter>, hops: seq<nat>, depth: nat, finalized: bool, deleted: bool)

  type Shelf = map<Key, Book>

  function Crossed(hops: seq<nat>): (r: seq<nat>)
    ensures |r| == |hops|
  {
    seq(|hops|, i requires 0 <= i < |hops| => hops[i] + 1)
  }

  function Copied(b: Book, fork: nat): Book
    requires fork < |b.chapters| == |b.hops|
  {
    Book(b.chapters[..fork + 1], Crossed(b.hops[..fork + 1]), b.depth + 1, false, false)
  }

  predicate Open(p: Shelf, key: Key) {
    key in p && !p[key].deleted
  }

  function Shelve(p: Shelf, op: Op): Shelf
    requires Sound(p)
  {
    match op
    case DoCreate(key) => if key in p then p else p[key := Book([], [], 0, false, false)]
    case DoLink(key, link) =>
      if link.base in p && key !in p && 0 <= link.fork < |p[link.base].chapters|
      then p[key := Copied(p[link.base], link.fork)] else p
    case DoAppend(key, ordinal, body) =>
      if Open(p, key) && !p[key].finalized && ordinal == |p[key].chapters|
      then p[key := p[key].(chapters := p[key].chapters + [body], hops := p[key].hops + [0])] else p
    case DoPublish(key) => if Open(p, key) && !p[key].finalized then p[key := p[key].(finalized := true)] else p
    case DoTombstone(key) => if Open(p, key) && p[key].finalized then p[key := p[key].(deleted := true)] else p
  }

  ghost predicate Sound(p: Shelf) {
    forall key :: key in p ==> |p[key].hops| == |p[key].chapters|
  }

  function ShelveAll(ops: seq<Op>): (p: Shelf)
    ensures Sound(p)
  {
    if ops == [] then map[] else Shelve(ShelveAll(ops[..|ops| - 1]), ops[|ops| - 1])
  }

  // The linked store refines the shelf.

  /** One story against its book: same length and flags; a link copies a prefix of its base's
      book, which has a shorter chain; what lies past the fork is stored under the story itself. */
  ghost predicate Matches(r: Rows, p: Shelf, key: Key)
    requires key in r.stories && key in p
  {
    var s, b := r.stories[key], p[key];
    && |b.chapters| == |b.hops| == s.latest + 1
    && b.finalized == s.finalized && b.deleted == s.deleted
    && (s.link.Some? ==>
          var l := s.link.value;
          && l.base in r.stories && l.base in p && p[l.base].depth < b.depth
          && 0 <= l.fork < |b.chapters| && l.fork < |p[l.base].chapters| == |p[l.base].hops|
          && forall k :: 0 <= k <= l.fork ==>
               b.chapters[k] == p[l.base].chapters[k] && b.hops[k] == p[l.base].hops[k] + 1)
    && (forall k :: Past(s.link) <= k <= s.latest ==>
          (key, k) in r.chapters && r.chapters[(key, k)] == b.chapters[k] && b.hops[k] == 0)
    && (forall k :: (key, k) in r.chapters ==> Past(s.link) <= k <= s.latest)
  }

  /** The first ordinal a story owns itself. */
  function Past(link: Option<Link>): int {
    if link.Some? then link.value.fork + 1 else 0
  }

  ghost predicate Refines(r: Rows, p: Shelf) {
    && Sound(p)
    && (forall key :: key in r.stories <==> key in p)
    && (forall key :: key in p ==> Matches(r, p, key))
    && (forall key, k :: (key, k) in r.chapters ==> key in p)
  }

  lemma OthersMatch(r: Rows, p: Shelf, r': Rows, p': Shelf, key: Key, other: Key)
    requires Refines(r, p) && other in r.stories && other != key
    requires forall k :: k in r.stories ==> k in r'.stories && (k != key ==> r'.stories[k] == r.stories[k])
    requires forall k :: k in p ==> k in p' && (k != key ==> p'[k] == p[k])
    requires forall k :: (other, k) in r'.chapters <==> (other, k) in r.chapters
    requires forall k :: (other, k) in r.chapters ==> r'.chapters[(other, k)] == r.chapters[(other, k)]
    requires key in p ==> Grows(p[key], p'[key])
    ensures Matches(r', p', other)
  {
    assert Matches(r, p, other);
  }

  /** What one operation may do to a book: never shorten, reorder or rewrite it. */
  ghost predicate Grows(b: Book, b': Book) {
    && b.chapters <= b'.chapters && b.hops <= b'.hops && |b'.chapters| == |b'.hops| && b'.depth == b.depth
    && (b.finalized ==> b'.finalized && b'.chapters == b.chapters) && (b.deleted ==> b' == b)
  }

  lemma StepGrows(p: Shelf, op: Op, key: Key)
    requires Sound(p) && key in p
    ensures key in Shelve(p, op) && Grows(p[key], Shelve(p, op)[key])
  {
  }

  /** Both sides refuse together. */
  lemma StepAgrees(r: Rows, p: Shelf, op: Op)
    requires Refines(r, p)
    ensures Attempt(r, op).Err? ==> Shelve(p, op) == p
    ensures Attempt(r, op).Done? && !op.DoLink? && !op.DoCreate? ==> op.key in p
    ensures Attempt(r, op).Done? && (op.DoLink? || op.DoCreate?) ==> op.key !in p && op.key in Shelve(p, op)
    ensures Attempt(r, op).Done? && op.DoLink? ==> op.link.base in p && 0 <= op.link.fork < |p[op.link.base].chapters|
  {
    if op.key in p { assert Matches(r, p, op.key); }
    if op.DoLink? && op.link.base in p { assert Matches(r, p, op.link.base); }
  }

  lemma LinkMatches(r: Rows, p: Shelf, key: Key, link: Link)
    requires Refines(r, p) && CreateLinked(r, key, link).Done?
    ensures Matches(CreateLinked(r, key, link).value, Shelve(p, DoLink(key, link)), key)
  {
    StepAgrees(r, p, DoLink(key, link));
    var p' := Shelve(p, DoLink(key, link));
    var base := p[link.base];
    assert p'[key] == Copied(base, link.fork);
    forall k | 0 <= k <= link.fork
      ensures p'[key].chapters[k] == base.chapters[k] && p'[key].hops[k] == base.hops[k] + 1
    {
      assert base.hops[..link.fork + 1][k] == base.hops[k];
    }
  }

  lemma AppendMatches(r: Rows, p: Shelf, key: Key, ordinal: int, body: Chapter)
    requires Refines(r, p) && Append(r, key, ordinal, body).Done?
    ensures Matches(Append(r, key, ordinal, body).value, Shelve(p, DoAppend(key, ordinal, body)), key)
  {
    assert Matches(r, p, key);
  }

  lemma StepMatches(r: Rows, p: Shelf, op: Op)
    requires Refines(r, p) && Attempt(r, op).Done?
    ensures Matches(Attempt(r, op).value, Shelve(p, op), op.key)
  {
    StepAgrees(r, p, op);
    match op
    case DoCreate(key) =>
    case DoLink(key, link) => LinkMatches(r, p, key, link);
    case DoAppend(key, ordinal, body) => AppendMatches(r, p, key, ordinal, body);
    case _ => assert Matches(r, p, op.key);
  }

  /** An operation touches one story and its own chapters. */
  ghost predicate OnlyAt(key: Key, r: Rows, p: Shelf, r': Rows, p': Shelf) {
    && r'.stories.Keys == r.stories.Keys + {key} && p'.Keys == p.Keys + {key}
    && (forall k :: k in r.stories && k != key ==> r'.stories[k] == r.stories[k])
    && (forall k :: k in p && k != key ==> p'[k] == p[k])
    && (forall other, k :: other != key ==> ((other, k) in r'.chapters <==> (other, k) in r.chapters))
    && (forall other, k :: other != key && (other, k) in r.chapters ==>
        r'.chapters[(other, k)] == r.chapters[(other, k)])
  }

  lemma StepIsLocal(r: Rows, p: Shelf, op: Op)
    requires Refines(r, p) && Attempt(r, op).Done?
    ensures OnlyAt(op.key, r, p, Attempt(r, op).value, Shelve(p, op))
  {
    hide Matches;
    StepAgrees(r, p, op);
  }

  lemma LocalIsSound(r: Rows, p: Shelf, r': Rows, p': Shelf, key: Key)
    requires Refines(r, p) && OnlyAt(key, r, p, r', p') && Matches(r', p', key)
    ensures Sound(p') && forall other, k :: (other, k) in r'.chapters ==> other in p'
  {
    forall other | other in p' ensures |p'[other].hops| == |p'[other].chapters| {
      if other != key { assert p'[other] == p[other]; }
    }
  }

  lemma LocalRefines(r: Rows, p: Shelf, r': Rows, p': Shelf, key: Key)
    requires Refines(r, p) && OnlyAt(key, r, p, r', p') && Matches(r', p', key) && (key in p ==> Grows(p[key], p'[key]))
    ensures Refines(r', p')
  {
    hide Matches, Grows;
    LocalIsSound(r, p, r', p', key);
    forall other | other in p' && other != key ensures Matches(r', p', other) {
      OthersMatch(r, p, r', p', key, other);
    }
  }

  lemma StepRefines(r: Rows, p: Shelf, op: Op)
    requires Refines(r, p)
    ensures Refines(Apply(r, op), Shelve(p, op))
  {
    hide Matches;
    StepAgrees(r, p, op);
    if Attempt(r, op).Done? {
      StepMatches(r, p, op);
      StepIsLocal(r, p, op);
      if op.key in p { StepGrows(p, op, op.key); }
      LocalRefines(r, p, Attempt(r, op).value, Shelve(p, op), op.key);
    }
  }

  lemma {:induction false} RunRefines(ops: seq<Op>)
    ensures Refines(Run(ops), ShelveAll(ops))
    decreases |ops|
  {
    if ops == [] {
    } else {
      RunRefines(ops[..|ops| - 1]);
      StepRefines(Run(ops[..|ops| - 1]), ShelveAll(ops[..|ops| - 1]), ops[|ops| - 1]);
    }
  }

  // Reading.

  /** Indexing the copied sequence, if the owner is near enough. */
  function PlainRead(p: Shelf, key: Key, selector: int): Result<Chapter>
    requires Sound(p)
  {
    if !Open(p, key) then Err(StoryNotFound)
    else
      var chapters := p[key].chapters;
      var k := if selector < 0 then |chapters| + selector else selector;
      if !(0 <= k < |chapters|) then Err(ChapterNotFound)
      else if p[key].hops[k] >= 1024 then Err(TooDeep)
      else Done(chapters[k])
  }

  lemma BookOf(r: Rows, p: Shelf, key: Key)
    requires Refines(r, p)
    ensures Active(r, key) == Open(p, key) && (key in r.stories <==> key in p)
    ensures key in p ==> r.stories[key].latest + 1 == |p[key].chapters|
  {
    if key in p { assert Matches(r, p, key); }
  }

  lemma OwnsIt(r: Rows, p: Shelf, key: Key, k: nat)
    requires Refines(r, p) && key in p && k < |p[key].chapters| && Past(r.stories[key].link) <= k
    ensures (key, k) in r.chapters && r.chapters[(key, k)] == p[key].chapters[k] && p[key].hops[k] == 0
  {
    assert Matches(r, p, key);
  }

  lemma InheritsIt(r: Rows, p: Shelf, key: Key, k: nat)
    requires Refines(r, p) && key in p && k < |p[key].chapters| && k < Past(r.stories[key].link)
    ensures
      var base := r.stories[key].link.value.base;
      base in p && k < |p[base].chapters| && p[key].chapters[k] == p[base].chapters[k]
        && p[key].hops[k] == p[base].hops[k] + 1
  {
    assert Matches(r, p, key);
  }

  /** The walk finds the owner exactly when it may look at more stories than it crosses links,
      and the owner's row holds what the copied sequence holds. */
  lemma {:induction false} ResolveFinds(r: Rows, p: Shelf, key: Key, k: nat, depth: nat)
    requires Refines(r, p) && key in p && k < |p[key].chapters|
    ensures
      var found := Resolve(r, key, k, depth);
      if p[key].hops[k] < depth
      then found.Done? && (found.value, k) in r.chapters && r.chapters[(found.value, k)] == p[key].chapters[k]
      else found == Err(TooDeep)
    decreases depth
  {
    hide Matches;
    BookOf(r, p, key);
    if depth > 0 {
      if Past(r.stories[key].link) <= k {
        OwnsIt(r, p, key, k);
      } else {
        InheritsIt(r, p, key, k);
        ResolveFinds(r, p, r.stories[key].link.value.base, k, depth - 1);
      }
    }
  }

  lemma ReadRefines(r: Rows, p: Shelf, key: Key, selector: int)
    requires Refines(r, p)
    ensures Read(r, key, selector) == PlainRead(p, key, selector)
  {
    hide Matches;
    BookOf(r, p, key);
    if key in p {
      var k := if selector < 0 then |p[key].chapters| + selector else selector;
      if 0 <= k < |p[key].chapters| {
        ResolveFinds(r, p, key, k, MAX_LINK_DEPTH);
      }
    }
  }

  /** Over any history, reading through the links is indexing a copied sequence. */
  lemma LinkedReadsAreCopiedReads(ops: seq<Op>, key: Key, selector: int)
    ensures Read(Run(ops), key, selector) == PlainRead(ShelveAll(ops), key, selector)
  {
    RunRefines(ops);
    ReadRefines(Run(ops), ShelveAll(ops), key, selector);
  }

  lemma {:induction false} HistoryGrows(ops: seq<Op>, more: seq<Op>, key: Key)
    requires key in ShelveAll(ops)
    ensures key in ShelveAll(ops + more) && Grows(ShelveAll(ops)[key], ShelveAll(ops + more)[key])
    decreases |more|
  {
    if more == [] {
      assert ops + more == ops;
    } else {
      var fewer := more[..|more| - 1];
      assert (ops + more)[..|ops + more| - 1] == ops + fewer;
      HistoryGrows(ops, fewer, key);
      StepGrows(ShelveAll(ops + fewer), more[|more| - 1], key);
    }
  }

  /** Nothing that happens later, to the story, its source or its clones, changes what an ordinal
      reads as; only the story's own tombstone ends the reading. */
  lemma LaterOpsNeverDisturb(ops: seq<Op>, more: seq<Op>, key: Key, ordinal: nat)
    requires Read(Run(ops), key, ordinal).Done?
    ensures
      var later := Read(Run(ops + more), key, ordinal);
      later == Read(Run(ops), key, ordinal) || (later == Err(StoryNotFound) && !Active(Run(ops + more), key))
  {
    hide Matches;
    LinkedReadsAreCopiedReads(ops, key, ordinal);
    LinkedReadsAreCopiedReads(ops + more, key, ordinal);
    HistoryGrows(ops, more, key);
    RunRefines(ops + more);
    var b, b' := ShelveAll(ops)[key], ShelveAll(ops + more)[key];
    assert b'.chapters[ordinal] == b.chapters[ordinal] && b'.hops[ordinal] == b.hops[ordinal];
    BookOf(Run(ops + more), ShelveAll(ops + more), key);
  }

  /** The story n links up from `key`. */
  function Ancestor(r: Rows, key: Key, n: nat): Option<Key>
    decreases n
  {
    if n == 0 then Some(key)
    else if key !in r.stories || r.stories[key].link.None? then None
    else Ancestor(r, r.stories[key].link.value.base, n - 1)
  }

  lemma {:induction false} AncestorsAreShallower(r: Rows, p: Shelf, key: Key, n: nat)
    requires Refines(r, p) && key in p && Ancestor(r, key, n).Some?
    ensures Ancestor(r, key, n).value in p && p[Ancestor(r, key, n).value].depth + n <= p[key].depth
    decreases n
  {
    if n > 0 {
      assert Matches(r, p, key);
      AncestorsAreShallower(r, p, r.stories[key].link.value.base, n - 1);
    }
  }

  /** No history links a story back to itself. */
  lemma ChainsAreAcyclic(ops: seq<Op>, key: Key, n: nat)
    requires key in Run(ops).stories && n > 0
    ensures Ancestor(Run(ops), key, n) != Some(key)
  {
    RunRefines(ops);
    if Ancestor(Run(ops), key, n).Some? {
      AncestorsAreShallower(Run(ops), ShelveAll(ops), key, n);
    }
  }
}
