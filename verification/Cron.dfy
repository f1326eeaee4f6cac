/**
 Cron expressions (pkg/jobdb/schedule_trigger.go): what a field's text denotes, and when a
 minute matches.  An expression has five fields and a minute must match all of them.
 */
module CronFields {
  import opened Retry
  import opened Texts
  import opened Numbers

  // Text.

  function Split(s: string, c: char): (parts: seq<string>)
    ensures parts != []
  {
    if s == "" then [""]
    else
      var rest := Split(s[1..], c);
      if s[0] == c then [""] + rest else [[s[0]] + rest[0]] + rest[1..]
  }

  function Join(parts: seq<string>, c: char): string
    requires parts != []
  {
    if |parts| == 1 then parts[0] else parts[0] + [c] + Join(parts[1..], c)
  }

  /** Splitting cuts at every separator and nowhere else. */
  lemma {:induction false} SplitIsCut(s: string, c: char)
    ensures Join(Split(s, c), c) == s
    ensures forall i :: 0 <= i < |Split(s, c)| ==> c !in Split(s, c)[i]
    decreases |s|
  {
    if s != "" {
      SplitIsCut(s[1..], c);
      var rest := Split(s[1..], c);
      assert s == [s[0]] + s[1..];
      if s[0] == c {
        assert ([""] + rest)[1..] == rest;
        assert Join([""] + rest, c) == "" + [c] + Join(rest, c);
      } else {
        var all := [[s[0]] + rest[0]] + rest[1..];
        assert all[1..] == rest[1..];
        if |rest| > 1 {
          assert Join(all, c) == [s[0]] + (rest[0] + [c] + Join(rest[1..], c));
        }
        forall i | 0 <= i < |all| ensures c !in all[i] {
          if i > 0 { assert all[i] == rest[i]; }
        }
      }
    }
  }

  function TrimLeft(s: string): string {
    if s != "" && IsSpace(s[0]) then TrimLeft(s[1..]) else s
  }

  function TrimRight(s: string): string {
    if s != "" && IsSpace(s[|s| - 1]) then TrimRight(s[..|s| - 1]) else s
  }

  /** The words of a text, with any run of spaces between them. */
  function Words(s: string): seq<string>
    decreases |s|
  {
    if s == "" then []
    else if IsSpace(s[0]) then Words(s[1..])
    else
      var n := WordLength(s);
      [s[..n]] + Words(s[n..])
  }

  function WordLength(s: string): (n: nat)
    requires s != "" && !IsSpace(s[0])
    ensures 0 < n <= |s|
  {
    if |s| == 1 || IsSpace(s[1]) then 1 else 1 + WordLength(s[1..])
  }

  const MIN_INT64 := -0x8000_0000_0000_0000
  const MAX_INT64 := 0x7fff_ffff_ffff_ffff

  predicate IsDigit(c: char) {
    '0' <= c <= '9'
  }

  function Digits(s: string): Option<nat> {
    if s == "" then None
    else if !IsDigit(s[|s| - 1]) then None
    else
      var d := s[|s| - 1] as int - '0' as int;
      if |s| == 1 then Some(d)
      else match Digits(s[..|s| - 1])
        case None => None
        case Some(n) => Some(10 * n + d)
  }

  /** A decimal integer with an optional sign, within 64 bits. */
  function Atoi(s: string): (r: Option<int>)
    ensures r.Some? ==> MIN_INT64 <= r.value <= MAX_INT64
  {
    var signed := s != "" && (s[0] == '-' || s[0] == '+');
    match Digits(if signed then s[1..] else s)
    case None => None
    case Some(n) =>
      var v := (if signed && s[0] == '-' then -1 else 1) * (n as int);
      if MIN_INT64 <= v <= MAX_INT64 then Some(v) else None
  }

  // Segments.

  datatype Span = Span(start: int, end: int, step: int)

  /** A span inside a cron field. */
  type Segment = s: Span | 0 <= s.start <= s.end <= 60 && 1 <= s.step <= MAX_INT64 witness Span(0, 0, 1)

  function CronRange(part: string, min: int, max: int): (r: Option<(int, int)>)
    requires min <= max
    ensures r.Some? ==> min <= r.value.0 <= r.value.1 <= max
  {
    if part == "*" then Some((min, max))
    else if '-' in part then
      var pieces := Split(part, '-');
      if |pieces| != 2 then None
      else match (Atoi(pieces[0]), Atoi(pieces[1]))
        case (Some(start), Some(end)) => if start > end || start < min || end > max then None else Some((start, end))
        case _ => None
    else match Atoi(part)
      case None => None
      case Some(v) => if v < min || v > max then None else Some((v, v))
  }

  function ParseSegment(text: string, min: int, max: int): (r: Option<Segment>)
    requires 0 <= min <= max <= 60
    ensures r.Some? ==> min <= r.value.start && r.value.end <= max
  {
    var part := TrimRight(TrimLeft(text));
    if part == "" then None
    else if '/' in part then
      var pieces := Split(part, '/');
      if |pieces| != 2 then None
      else match Atoi(pieces[1])
        case None => None
        case Some(step) =>
          if step <= 0 then None
          else match CronRange(pieces[0], min, max)
            case None => None
            case Some((start, end)) => Some(Span(start, end, step))
    else match CronRange(part, min, max)
      case None => None
      case Some((start, end)) => Some(Span(start, end, 1))
  }

  /** 64-bit addition wraps around. */
  function Wrap(v: int): int {
    if v > MAX_INT64 then v - 0x1_0000_0000_0000_0000 else v
  }

  /** Steps up to here cannot wrap. */
  const SAFE_STEP := 0x4000_0000_0000_0000

  /** Where the loop's variable can be: a large step can only carry it past the end, or around to
      a value that the next step brings back. */
  predicate InLoop(v: int, end: int, step: int) {
    && 0 <= end <= 60 && 1 <= step <= MAX_INT64
    && (if step <= SAFE_STEP then 0 <= v <= MAX_INT64
        else -60 <= v <= MAX_INT64 || -60 <= v + step <= 60)
  }

  /** What the loop counts down on: a safe step only moves up, and every pair of steps that wraps
      ends lower than it began. */
  function Fuel(v: int, end: int, step: int): nat
    requires InLoop(v, end, step)
  {
    if v > end then 0
    else if step <= SAFE_STEP then end - v + 1
    else if v >= -60 then 2 * (v + 60) + 1
    else 2 * (v + step + 60) + 2
  }

  function ReadAs(v: int, sundayAlias: bool): int {
    if sundayAlias && v == 7 then 0 else v
  }

  /** The values the loop marks from v on. */
  function Marked(v: int, end: int, step: int, sundayAlias: bool): set<int>
    requires InLoop(v, end, step)
    decreases Fuel(v, end, step)
  {
    if v > end then {}
    else
      var next := Wrap(v + step);
      {ReadAs(v, sundayAlias)} + Marked(next, end, step, sundayAlias)
  }

  function Segments(texts: seq<string>, min: int, max: int): (r: Option<seq<Segment>>)
    requires 0 <= min <= max <= 60
  {
    if texts == [] then Some([])
    else match (ParseSegment(texts[0], min, max), Segments(texts[1..], min, max))
      case (Some(s), Some(rest)) => Some([s] + rest)
      case _ => None
  }

  function AllMarked(segments: seq<Segment>, sundayAlias: bool): set<int>
  {
    if segments == [] then {}
    else
      Marked(segments[0].start, segments[0].end, segments[0].step, sundayAlias) + AllMarked(segments[1..], sundayAlias)
  }

  /** The set a field's text is parsed to, or None for a text that is refused. */
  function FieldSet(field: string, min: int, max: int, sundayAlias: bool): Option<set<int>>
    requires 0 <= min <= max <= 60
  {
    match Segments(Split(field, ','), min, max)
    case None => None
    case Some(segments) => Some(AllMarked(segments, sundayAlias))
  }

  method ParseCronField(field: string, min: int, max: int, sundayAlias: bool) returns (values: Option<set<int>>)
    requires 0 <= min <= max <= 60
    ensures values == FieldSet(field, min, max, sundayAlias)
  {
    var parts := Split(field, ',');
    var out: set<int> := {};
    assert parts[0..] == parts;
    MoreFromNothing(parts, min, max, sundayAlias);
    var i := 0;
    while i < |parts|
      invariant 0 <= i <= |parts|
      invariant FieldSet(field, min, max, sundayAlias) == More(out, parts[i..], min, max, sundayAlias)
    {
      assert parts[i..][0] == parts[i] && parts[i..][1..] == parts[i + 1..];
      MoreByOne(out, parts[i..], min, max, sundayAlias);
      var segment := ParseSegment(parts[i], min, max);
      if segment.None? { return None; }
      out := MarkSegment(out, segment.value, sundayAlias);
      i := i + 1;
    }
    return Some(out);
  }

  /** What the parts still to come add to the values already marked. */
  function More(out: set<int>, texts: seq<string>, min: int, max: int, sundayAlias: bool): Option<set<int>>
    requires 0 <= min <= max <= 60
  {
    match Segments(texts, min, max)
    case None => None
    case Some(segments) => Some(out + AllMarked(segments, sundayAlias))
  }

  lemma MoreFromNothing(texts: seq<string>, min: int, max: int, sundayAlias: bool)
    requires 0 <= min <= max <= 60
    ensures More({}, texts, min, max, sundayAlias) ==
      match Segments(texts, min, max)
      case None => None
      case Some(segments) => Some(AllMarked(segments, sundayAlias))
  {
    match Segments(texts, min, max) {
      case None =>
      case Some(segments) => assert {} + AllMarked(segments, sundayAlias) == AllMarked(segments, sundayAlias);
    }
  }

  lemma MoreByOne(out: set<int>, texts: seq<string>, min: int, max: int, sundayAlias: bool)
    requires 0 <= min <= max <= 60 && texts != []
    ensures More(out, texts, min, max, sundayAlias) ==
      match ParseSegment(texts[0], min, max)
      case None => None
      case Some(s) => More(out + Marked(s.start, s.end, s.step, sundayAlias), texts[1..], min, max, sundayAlias)
  {
    match (ParseSegment(texts[0], min, max), Segments(texts[1..], min, max)) {
      case (Some(s), Some(rest)) =>
        assert ([s] + rest)[1..] == rest;
        var a, b := Marked(s.start, s.end, s.step, sundayAlias), AllMarked(rest, sundayAlias);
        assert AllMarked([s] + rest, sundayAlias) == a + b;
        assert out + (a + b) == (out + a) + b;
      case _ =>
    }
  }

  method MarkSegment(seen: set<int>, s: Segment, sundayAlias: bool) returns (out: set<int>)
    ensures out == seen + Marked(s.start, s.end, s.step, sundayAlias)
  {
    out := seen;
    var v := s.start;
    while v <= s.end
      invariant InLoop(v, s.end, s.step)
      invariant out + Marked(v, s.end, s.step, sundayAlias) == seen + Marked(s.start, s.end, s.step, sundayAlias)
      decreases Fuel(v, s.end, s.step)
    {
      out := out + {ReadAs(v, sundayAlias)};
      v := Wrap(v + s.step);
    }
  }

  // What the text means.

  /** The range from start to end, taken in steps. */
  predicate In(s: Segment, v: int) {
    s.start <= v <= s.end && (v - s.start) % s.step == 0
  }

  /** The last value of a segment; the loop still adds the step to it once. */
  function Last(s: Segment): int {
    s.start + (s.end - s.start) / s.step * s.step
  }

  predicate StepFits(s: Segment) {
    Last(s) + s.step <= MAX_INT64
  }

  ghost predicate Means(s: Segment, sundayAlias: bool, x: int) {
    exists v :: In(s, v) && x == ReadAs(v, sundayAlias)
  }

  lemma StepBack(start: int, v: int, step: int)
    requires step > 0 && start + step <= v
    ensures (v - start) % step == (v - (start + step)) % step
  {
    var a := v - (start + step);
    var q, r := a / step, a % step;
    assert a == q * step + r && 0 <= r < step;
    assert v - start == (q + 1) * step + r;
    DivUnique(v - start, step, q + 1, r);
  }

  lemma NotYetAStep(start: int, v: int, step: int)
    requires step > 0 && start <= v < start + step && (v - start) % step == 0
    ensures v == start
  {
    DivUnique(v - start, step, 0, v - start);
  }

  lemma NextLast(s: Segment)
    requires s.start + s.step <= s.end
    ensures Last(s.(start := s.start + s.step)) == Last(s)
  {
    var a := s.end - (s.start + s.step);
    var q, r := a / s.step, a % s.step;
    assert a == q * s.step + r && 0 <= r < s.step;
    assert s.end - s.start == (q + 1) * s.step + r;
    DivUnique(s.end - s.start, s.step, q + 1, r);
    assert (q + 1) * s.step == q * s.step + s.step;
  }

  /** With a step that fits, the loop marks exactly what the segment means. */
  lemma {:induction false} MarksWhatItMeans(s: Segment, sundayAlias: bool, x: int)
    requires StepFits(s)
    ensures x in Marked(s.start, s.end, s.step, sundayAlias) <==> Means(s, sundayAlias, x)
    decreases s.end - s.start
  {
    assert In(s, s.start) by { DivUnique(0, s.step, 0, 0); }
    LastIsInside(s);
    if s.start + s.step <= s.end {
      var rest: Segment := s.(start := s.start + s.step);
      NextLast(s);
      MarksWhatItMeans(rest, sundayAlias, x);
      forall v | In(s, v) ensures v == s.start || In(rest, v) {
        if v < rest.start { NotYetAStep(s.start, v, s.step); } else { StepBack(s.start, v, s.step); }
      }
      forall v | In(rest, v) ensures In(s, v) { StepBack(s.start, v, s.step); }
    } else {
      forall v | In(s, v) ensures v == s.start { NotYetAStep(s.start, v, s.step); }
    }
  }

  lemma LastIsInside(s: Segment)
    ensures s.start <= Last(s) <= s.end < Last(s) + s.step
  {
    QuotientBounds(s.end - s.start, s.step);
  }

  lemma QuotientBounds(n: nat, d: int)
    requires d > 0
    ensures 0 <= n / d * d <= n < n / d * d + d
  {
    var q, r := n / d, n % d;
    assert n == q * d + r && 0 <= r < d;
    assert (-q) * d == -(q * d);
    if q < 0 { AtLeastOnce(-q, d); }
    if q > 0 { AtLeastOnce(q, d); }
  }

  /** With a step that does not fit, the loop wraps around and marks a negative value. */
  lemma WrapsBelowZero(s: Segment, sundayAlias: bool)
    requires !StepFits(s)
    ensures exists x :: x < 0 && x in Marked(s.start, s.end, s.step, sundayAlias)
  {
    LastIsInside(s);
    DivUnique(s.end - s.start, s.step, 0, s.end - s.start);
    var w := Wrap(s.start + s.step);
    assert w < 0 && ReadAs(w, sundayAlias) in Marked(w, s.end, s.step, sundayAlias);
    assert w in Marked(s.start, s.end, s.step, sundayAlias);
  }

  ghost predicate FieldMeans(segments: seq<Segment>, sundayAlias: bool, x: int)
  {
    exists i :: 0 <= i < |segments| && Means(segments[i], sundayAlias, x)
  }

  lemma {:induction false} AllMarkedIsUnion(segments: seq<Segment>, sundayAlias: bool, x: int)
    ensures x in AllMarked(segments, sundayAlias) <==>
      exists i :: 0 <= i < |segments| && x in Marked(segments[i].start, segments[i].end, segments[i].step, sundayAlias)
    decreases |segments|
  {
    if segments == [] {
    } else {
      AllMarkedIsUnion(segments[1..], sundayAlias, x);
      if x in AllMarked(segments[1..], sundayAlias) {
        var i :| 0 <= i < |segments[1..]|
          && x in Marked(segments[1..][i].start, segments[1..][i].end, segments[1..][i].step, sundayAlias);
        assert segments[i + 1] == segments[1..][i];
      }
      if i :| 0 <= i < |segments| && x in Marked(segments[i].start, segments[i].end, segments[i].step, sundayAlias) {
        if i > 0 { assert segments[1..][i - 1] == segments[i]; }
      }
    }
  }

  /** A field is parsed to exactly what its text means if and only if no segment's step carries
      its last value past 64 bits. */
  lemma FieldIsExactUnlessItWraps(field: string, min: int, max: int, sundayAlias: bool)
    requires 0 <= min <= max <= 60 && Segments(Split(field, ','), min, max).Some?
    ensures
      var segments := Segments(Split(field, ','), min, max).value;
      var values := FieldSet(field, min, max, sundayAlias).value;
      (forall x :: x in values <==> FieldMeans(segments, sundayAlias, x)) <==>
        (forall s :: s in segments ==> StepFits(s))
  {
    var segments := Segments(Split(field, ','), min, max).value;
    if forall s :: s in segments ==> StepFits(s) {
      forall x ensures x in AllMarked(segments, sundayAlias) <==> FieldMeans(segments, sundayAlias, x) {
        AllMarkedIsUnion(segments, sundayAlias, x);
        forall i | 0 <= i < |segments|
          ensures x in Marked(segments[i].start, segments[i].end, segments[i].step, sundayAlias) <==>
            Means(segments[i], sundayAlias, x)
        {
          assert segments[i] in segments;
          MarksWhatItMeans(segments[i], sundayAlias, x);
        }
      }
    } else {
      var s :| s in segments && !StepFits(s);
      WrapsBelowZero(s, sundayAlias);
      var x :| x < 0 && x in Marked(s.start, s.end, s.step, sundayAlias);
      var i :| 0 <= i < |segments| && segments[i] == s;
      AllMarkedIsUnion(segments, sundayAlias, x);
      assert x in AllMarked(segments, sundayAlias) && !FieldMeans(segments, sundayAlias, x);
    }
  }

  /** The minute field 5/9223372036854775807 also marks minute 3. */
  lemma WrappedStepMarksAnotherMinute()
    ensures 3 in Marked(5, 5, MAX_INT64, false) && !In(Span(5, 5, MAX_INT64), 3)
  {
    var w := Wrap(5 + MAX_INT64);
    assert Wrap(w + MAX_INT64) == 3;
    assert 3 in Marked(3, 5, MAX_INT64, false);
    assert 3 in Marked(w, 5, MAX_INT64, false);
  }
}
