/**
 A whole cron expression, from its text to the minutes it names.
 */
module CronExpressions {
  import opened Retry
  import opened Texts
  import opened CronFields
  import opened CronText
  import opened CronSearch

  // Words between spaces.

  ghost predicate Blank(s: string) {
    forall i :: 0 <= i < |s| ==> IsSpace(s[i])
  }

  ghost predicate Solid(s: string) {
    s != "" && forall i :: 0 <= i < |s| ==> !IsSpace(s[i])
  }

  /** The words with a gap before each and one behind the last. */
  function Laid(words: seq<string>, gaps: seq<string>): string
    requires |gaps| == |words| + 1
  {
    if words == [] then gaps[0] else gaps[0] + words[0] + Laid(words[1..], gaps[1..])
  }

  /** Every gap is blank, and between two words there is one. */
  ghost predicate Gaps(gaps: seq<string>) {
    forall i :: 0 <= i < |gaps| ==> Blank(gaps[i]) && (0 < i < |gaps| - 1 ==> gaps[i] != "")
  }

  lemma {:induction false} BlanksAreSkipped(blank: string, rest: string)
    requires Blank(blank)
    ensures Words(blank + rest) == Words(rest)
    decreases |blank|
  {
    if blank == "" {
      assert blank + rest == rest;
    } else {
      assert (blank + rest)[1..] == blank[1..] + rest;
      BlanksAreSkipped(blank[1..], rest);
    }
  }

  lemma {:induction false} WordIsTaken(word: string, rest: string)
    requires Solid(word) && (rest == "" || IsSpace(rest[0]))
    ensures WordLength(word + rest) == |word|
    decreases |word|
  {
    var s := word + rest;
    if |word| == 1 {
      assert rest != "" ==> s[1] == rest[0];
    } else {
      assert s[1] == word[1] && s[1..] == word[1..] + rest;
      WordIsTaken(word[1..], rest);
    }
  }

  /** Words laid out with any spaces between them are read back. */
  lemma {:induction false} WordsRoundTrip(words: seq<string>, gaps: seq<string>)
    requires |gaps| == |words| + 1 && Gaps(gaps) && forall i :: 0 <= i < |words| ==> Solid(words[i])
    ensures Words(Laid(words, gaps)) == words
    decreases |words|
  {
    if words == [] {
      BlanksAreSkipped(gaps[0], "");
      assert gaps[0] + "" == gaps[0];
    } else {
      var rest := Laid(words[1..], gaps[1..]);
      var text := words[0] + rest;
      assert Laid(words, gaps) == gaps[0] + text;
      BlanksAreSkipped(gaps[0], text);
      LaidStartsBlank(words[1..], gaps[1..]);
      WordIsTaken(words[0], rest);
      assert text[..|words[0]|] == words[0] && text[|words[0]|..] == rest && text[0] == words[0][0];
      forall i | 0 <= i < |gaps[1..]| ensures Blank(gaps[1..][i]) && (0 < i < |gaps[1..]| - 1 ==> gaps[1..][i] != "") {
        assert gaps[1..][i] == gaps[i + 1];
      }
      WordsRoundTrip(words[1..], gaps[1..]);
      assert [words[0]] + words[1..] == words;
    }
  }

  lemma LaidStartsBlank(words: seq<string>, gaps: seq<string>)
    requires |gaps| == |words| + 1 && Blank(gaps[0]) && (words != [] ==> gaps[0] != "")
    ensures Laid(words, gaps) == "" || IsSpace(Laid(words, gaps)[0])
  {
  }

  // What a field says.

  /** The term alone covers v. */
  predicate TermCovers(t: Term, min: int, max: int, v: int) {
    match t
    case Every => min <= v <= max
    case Single(w) => v == w
    case Between(a, b) => a <= v <= b
  }

  function First(t: Term, min: int): int {
    match t
    case Every => min
    case Single(w) => w
    case Between(a, _) => a
  }

  /** v is in the term, and a whole number of steps from its first value. */
  predicate ItemCovers(i: Item, min: int, max: int, v: int) {
    && TermCovers(i.term, min, max, v)
    && (i.step.Some? && i.step.value > 0 ==> (v - First(i.term, min)) % i.step.value == 0)
  }

  ghost predicate Says(items: seq<Item>, min: int, max: int, v: int) {
    exists n :: 0 <= n < |items| && ItemCovers(items[n], min, max, v)
  }

  /** The field may be written so: bounds in order and inside, steps positive. */
  predicate InBounds(i: Item, min: int, max: int) {
    && (i.term.Single? ==> min <= i.term.v <= max)
    && (i.term.Between? ==> min <= i.term.a <= i.term.b <= max)
    && (i.step.Some? ==> 1 <= i.step.value)
  }

  /** No step comes near the 64-bit limit. */
  predicate ModestSteps(items: seq<Item>) {
    forall n :: 0 <= n < |items| ==> items[n].step.Some? ==> items[n].step.value <= 0x4000_0000_0000_0000
  }

  function FieldText(items: seq<Item>): string
    requires items != []
  {
    Join(ItemTexts(items), ',')
  }

  lemma {:induction false} DenotedInBounds(items: seq<Item>, min: int, max: int)
    requires 0 <= min <= max <= 60 && ModestSteps(items)
    ensures AllDenoted(items, min, max).Some? <==> forall n :: 0 <= n < |items| ==> InBounds(items[n], min, max)
    ensures AllDenoted(items, min, max).Some? ==>
      var segments := AllDenoted(items, min, max).value;
      && |segments| == |items|
      && forall n :: 0 <= n < |items| ==> Denoted(items[n], min, max) == Some(segments[n])
    decreases |items|
  {
    if items == [] {
    } else {
      assert ModestSteps(items[1..]) by {
        forall n | 0 <= n < |items[1..]| && items[1..][n].step.Some?
          ensures items[1..][n].step.value <= 0x4000_0000_0000_0000
        {
          assert items[1..][n] == items[n + 1];
        }
      }
      DenotedInBounds(items[1..], min, max);
      OneDenotedInBounds(items[0], min, max);
      if forall n :: 0 <= n < |items| ==> InBounds(items[n], min, max) {
        forall n | 0 <= n < |items[1..]| ensures InBounds(items[1..][n], min, max) {
          assert items[1..][n] == items[n + 1];
        }
      }
      if AllDenoted(items, min, max).Some? {
        forall n | 0 <= n < |items| ensures InBounds(items[n], min, max) {
          if n > 0 { assert items[n] == items[1..][n - 1]; }
        }
      }
    }
  }

  lemma OneDenotedInBounds(i: Item, min: int, max: int)
    requires 0 <= min <= max <= 60 && (i.step.Some? ==> i.step.value <= 0x4000_0000_0000_0000)
    ensures Denoted(i, min, max).Some? <==> InBounds(i, min, max)
  {
  }

  /** What one segment marks is what its item covers. */
  lemma SegmentSays(i: Item, min: int, max: int, v: int)
    requires 0 <= min <= max <= 60 && (i.step.Some? ==> i.step.value <= 0x4000_0000_0000_0000)
    requires Denoted(i, min, max).Some?
    ensures In(Denoted(i, min, max).value, v) <==> ItemCovers(i, min, max, v)
    ensures StepFits(Denoted(i, min, max).value)
  {
    LastIsInside(Denoted(i, min, max).value);
  }

  /** Read through the alias, v is x. */
  predicate Counts(v: int, x: int, sundayAlias: bool) {
    v == x || (sundayAlias && v == 7 && x == 0)
  }

  /** The text of a field is refused exactly if a term is out of bounds, and else holds exactly the
      values its terms cover; on weekdays 7 is Sunday and never stands for itself. */
  lemma FieldSaysWhatIsWritten(items: seq<Item>, min: int, max: int, sundayAlias: bool)
    requires 0 <= min <= max <= 60 && items != [] && ModestSteps(items)
    ensures
      var values := FieldSet(FieldText(items), min, max, sundayAlias);
      && (values.Some? <==> forall n :: 0 <= n < |items| ==> InBounds(items[n], min, max))
      && (values.Some? ==> forall x ::
            x in values.value <==>
              && !(sundayAlias && x == 7)
              && (Says(items, min, max, x) || (sundayAlias && x == 0 && Says(items, min, max, 7))))
  {
    FieldRoundTrip(items, min, max, sundayAlias);
    DenotedInBounds(items, min, max);
    if AllDenoted(items, min, max).Some? {
      var segments := AllDenoted(items, min, max).value;
      var values := AllMarked(segments, sundayAlias);
      forall x
        ensures x in values <==>
          !(sundayAlias && x == 7) && (Says(items, min, max, x) || (sundayAlias && x == 0 && Says(items, min, max, 7)))
      {
        ValueIsSaid(items, segments, min, max, sundayAlias, x);
      }
    }
  }

  lemma ValueIsSaid(items: seq<Item>, segments: seq<Segment>, min: int, max: int, sundayAlias: bool, x: int)
    requires 0 <= min <= max <= 60 && ModestSteps(items) && |segments| == |items|
    requires forall n :: 0 <= n < |items| ==> Denoted(items[n], min, max) == Some(segments[n])
    ensures x in AllMarked(segments, sundayAlias) <==>
      !(sundayAlias && x == 7) && (Says(items, min, max, x) || (sundayAlias && x == 0 && Says(items, min, max, 7)))
  {
    AllMarkedIsUnion(segments, sundayAlias, x);
    forall n | 0 <= n < |segments|
      ensures x in Marked(segments[n].start, segments[n].end, segments[n].step, sundayAlias) <==>
        !(sundayAlias && x == 7)
        && (ItemCovers(items[n], min, max, x) || (sundayAlias && x == 0 && ItemCovers(items[n], min, max, 7)))
    {
      SegmentSays(items[n], min, max, x);
      SegmentSays(items[n], min, max, 7);
      MarksWhatItMeans(segments[n], sundayAlias, x);
      if In(segments[n], 7) { assert sundayAlias && x == 0 ==> Means(segments[n], sundayAlias, x); }
    }
  }

  // The whole expression.

  lemma ItemIsSolid(i: Item)
    ensures Solid(ItemText(i))
  {
    TermIsPlain(i.term);
    if i.step.Some? { DecimalIsDigits(i.step.value); }
  }

  lemma {:induction false} JoinIsSolid(parts: seq<string>)
    requires parts != [] && forall n :: 0 <= n < |parts| ==> Solid(parts[n])
    ensures Solid(Join(parts, ','))
    decreases |parts|
  {
    if |parts| == 1 {
    } else {
      JoinIsSolid(parts[1..]);
    }
  }

  lemma FieldIsSolid(items: seq<Item>)
    requires items != []
    ensures Solid(FieldText(items))
  {
    forall n | 0 <= n < |items| ensures Solid(ItemTexts(items)[n]) { ItemIsSolid(items[n]); }
    JoinIsSolid(ItemTexts(items));
  }

  /** The bounds of the five fields. */
  const LOWEST := [0, 0, 1, 1, 0]
  const HIGHEST := [59, 23, 31, 12, 7]

  /** One set of an expression against the field it was written from. */
  ghost predicate SaysField(values: set<int>, items: seq<Item>, n: nat)
    requires n < 5
  {
    forall x :: x in values <==>
      && !(n == 4 && x == 7)
      && (Says(items, LOWEST[n], HIGHEST[n], x) || (n == 4 && x == 0 && Says(items, LOWEST[n], HIGHEST[n], 7)))
  }

  ghost predicate FieldInBounds(items: seq<Item>, n: nat)
    requires n < 5
  {
    forall i :: 0 <= i < |items| ==> InBounds(items[i], LOWEST[n], HIGHEST[n])
  }

  lemma FieldOfExpression(items: seq<Item>, n: nat)
    requires n < 5 && items != [] && ModestSteps(items)
    ensures
      var values := FieldSet(FieldText(items), LOWEST[n], HIGHEST[n], n == 4);
      && (values.Some? <==> FieldInBounds(items, n)) && (values.Some? ==> SaysField(values.value, items, n))
  {
    FieldSaysWhatIsWritten(items, LOWEST[n], HIGHEST[n], n == 4);
  }

  /** An expression of five fields, written with any spaces, is refused exactly if a term is out of
      its field's bounds, and else names exactly the minutes 0 to 59, hours 0 to 23, days 1 to 31,
      months 1 to 12 and weekdays 0 to 6 that its terms cover. */
  lemma ExpressionSaysWhatIsWritten(fields: seq<seq<Item>>, gaps: seq<string>)
    requires |fields| == 5 && |gaps| == 6 && Gaps(gaps)
    requires forall n :: 0 <= n < 5 ==> fields[n] != [] && ModestSteps(fields[n])
    ensures
      var words := seq(5, n requires 0 <= n < 5 => FieldText(fields[n]));
      var spec := ParseSpec(Laid(words, gaps));
      && (spec.Some? <==>
            && FieldInBounds(fields[0], 0) && FieldInBounds(fields[1], 1) && FieldInBounds(fields[2], 2)
            && FieldInBounds(fields[3], 3) && FieldInBounds(fields[4], 4))
      && (spec.Some? ==>
            && SaysField(spec.value.minutes, fields[0], 0) && SaysField(spec.value.hours, fields[1], 1)
            && SaysField(spec.value.days, fields[2], 2) && SaysField(spec.value.months, fields[3], 3)
            && SaysField(spec.value.weekdays, fields[4], 4))
  {
    hide FieldSet, FieldInBounds, SaysField, FieldText, Words, Laid, Gaps, ModestSteps, Solid;
    var words := seq(5, n requires 0 <= n < 5 => FieldText(fields[n]));
    forall n | 0 <= n < 5 ensures Solid(words[n]) { FieldIsSolid(fields[n]); }
    WordsRoundTrip(words, gaps);
    FieldOfExpression(fields[0], 0);
    FieldOfExpression(fields[1], 1);
    FieldOfExpression(fields[2], 2);
    FieldOfExpression(fields[3], 3);
    FieldOfExpression(fields[4], 4);
  }

  /** A text that is not five words is no expression. */
  lemma FiveWords(words: seq<string>, gaps: seq<string>)
    requires |gaps| == |words| + 1 && Gaps(gaps) && |words| != 5 && forall i :: 0 <= i < |words| ==> Solid(words[i])
    ensures ParseSpec(Laid(words, gaps)) == None
  {
    WordsRoundTrip(words, gaps);
  }
}
