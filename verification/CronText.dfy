/**
 The parser of cron fields against the text it is for: every field written from its terms is
 parsed back to what the terms denote, and refused exactly when a term is out of bounds.
 */
module CronText {
  import opened Retry
  import opened CronFields
  import opened Texts

  datatype Term = Every | Single(v: nat) | Between(a: nat, b: nat)

  datatype Item = Item(term: Term, step: Option<nat>)

  function Decimal(n: nat): (s: string)
    ensures s != ""
  {
    var digit := ('0' as int + n % 10) as char;
    if n < 10 then [digit] else Decimal(n / 10) + [digit]
  }

  function TermText(t: Term): string {
    match t
    case Every => "*"
    case Single(v) => Decimal(v)
    case Between(a, b) => Decimal(a) + "-" + Decimal(b)
  }

  function ItemText(i: Item): string {
    TermText(i.term) + if i.step.Some? then "/" + Decimal(i.step.value) else ""
  }

  function ItemTexts(items: seq<Item>): seq<string> {
    seq(|items|, i requires 0 <= i < |items| => ItemText(items[i]))
  }

  /** The values a term ranges over in a field from min to max. */
  function Bounds(t: Term, min: int, max: int): Option<(int, int)> {
    match t
    case Every => Some((min, max))
    case Single(v) => if min <= v <= max then Some((v, v)) else None
    case Between(a, b) => if min <= a <= b <= max then Some((a, b)) else None
  }

  function Denoted(i: Item, min: int, max: int): Option<Segment>
    requires 0 <= min <= max <= 60
  {
    match (Bounds(i.term, min, max), i.step)
    case (Some((lo, hi)), None) => Some(Span(lo, hi, 1))
    case (Some((lo, hi)), Some(step)) => if 1 <= step <= MAX_INT64 then Some(Span(lo, hi, step)) else None
    case _ => None
  }

  function AllDenoted(items: seq<Item>, min: int, max: int): Option<seq<Segment>>
    requires 0 <= min <= max <= 60
  {
    if items == [] then Some([])
    else match (Denoted(items[0], min, max), AllDenoted(items[1..], min, max))
      case (Some(s), Some(rest)) => Some([s] + rest)
      case _ => None
  }

  // Decimals.

  ghost predicate AllDigits(s: string) {
    forall i :: 0 <= i < |s| ==> IsDigit(s[i])
  }

  lemma {:induction false} DecimalIsDigits(n: nat)
    ensures AllDigits(Decimal(n)) && Digits(Decimal(n)) == Some(n)
    decreases n
  {
    if n >= 10 {
      DecimalIsDigits(n / 10);
      var s := Decimal(n);
      assert s[..|s| - 1] == Decimal(n / 10);
      assert s[|s| - 1] as int - '0' as int == n % 10;
    }
  }

  /** Reading a decimal gives the number back, unless it needs more than 64 bits. */
  lemma AtoiReadsDecimal(n: nat)
    ensures Atoi(Decimal(n)) == if n <= MAX_INT64 then Some(n as int) else None
  {
    DecimalIsDigits(n);
    assert IsDigit(Decimal(n)[0]);
  }

  /** A sign is read, within 64 bits. */
  lemma AtoiReadsSigns(n: nat)
    ensures Atoi("-" + Decimal(n)) == if n <= 0x8000_0000_0000_0000 then Some(-(n as int)) else None
    ensures Atoi("+" + Decimal(n)) == if n <= 0x7fff_ffff_ffff_ffff then Some(n as int) else None
  {
    hide Digits, Decimal;
    DecimalIsDigits(n);
    assert ("-" + Decimal(n))[0] == '-' && ("+" + Decimal(n))[0] == '+';
    assert ("-" + Decimal(n))[1..] == Decimal(n) && ("+" + Decimal(n))[1..] == Decimal(n);
  }

  /** Anything else than a sign and digits is no number. */
  lemma AtoiRefuses(s: string)
    requires s == "" || exists i :: (if s[0] == '-' || s[0] == '+' then 1 else 0) <= i < |s| && !('0' <= s[i] <= '9')
    ensures Atoi(s) == None
  {
    if s != "" {
      var from := if s[0] == '-' || s[0] == '+' then 1 else 0;
      var i :| from <= i < |s| && !('0' <= s[i] <= '9');
      assert s[from..][i - from] == s[i];
      if from == 0 { assert s[0..] == s; }
      DigitsRefuses(s[from..], i - from);
    }
  }

  lemma {:induction false} DigitsRefuses(s: string, i: nat)
    requires i < |s| && !('0' <= s[i] <= '9')
    ensures Digits(s) == None
    decreases |s|
  {
    if i < |s| - 1 {
      assert s[..|s| - 1][i] == s[i];
      DigitsRefuses(s[..|s| - 1], i);
    }
  }

  // Cutting the text where it was joined.

  lemma {:induction false} SplitWhole(s: string, c: char)
    requires c !in s
    ensures Split(s, c) == [s]
    decreases |s|
  {
    if s != "" {
      assert c !in s[1..];
      SplitWhole(s[1..], c);
      assert [s[0]] + s[1..] == s;
    }
  }

  lemma {:induction false} SplitFirst(s: string, rest: string, c: char)
    requires c !in s
    ensures Split(s + [c] + rest, c) == [s] + Split(rest, c)
    decreases |s|
  {
    var all := s + [c] + rest;
    if s == "" {
      assert all[1..] == rest;
    } else {
      assert c !in s[1..];
      SplitFirst(s[1..], rest, c);
      assert all[1..] == s[1..] + [c] + rest;
      var tail := Split(all[1..], c);
      assert tail == [s[1..]] + Split(rest, c);
      assert [s[0]] + tail[0] == s && tail[1..] == Split(rest, c);
    }
  }

  lemma {:induction false} SplitJoined(parts: seq<string>, c: char)
    requires parts != [] && forall i :: 0 <= i < |parts| ==> c !in parts[i]
    ensures Split(Join(parts, c), c) == parts
    decreases |parts|
  {
    if |parts| == 1 {
      SplitWhole(parts[0], c);
    } else {
      SplitJoined(parts[1..], c);
      SplitFirst(parts[0], Join(parts[1..], c), c);
      assert [parts[0]] + parts[1..] == parts;
    }
  }

  lemma DigitsHoldNo(s: string, c: char)
    requires AllDigits(s) && !IsDigit(c)
    ensures c !in s
  {
  }

  lemma TrimKeeps(s: string)
    requires s != "" && !IsSpace(s[0]) && !IsSpace(s[|s| - 1])
    ensures TrimRight(TrimLeft(s)) == s
  {
  }

  lemma {:induction false} TrimRightCuts(s: string, after: string)
    requires s != "" && !IsSpace(s[|s| - 1]) && forall i :: 0 <= i < |after| ==> IsSpace(after[i])
    ensures TrimRight(s + after) == s
    decreases |after|
  {
    hide IsSpace;
    var text := s + after;
    if after == "" {
      assert text == s;
    } else {
      assert text[|text| - 1] == after[|after| - 1];
      assert text[..|text| - 1] == s + after[..|after| - 1];
      TrimRightCuts(s, after[..|after| - 1]);
    }
  }

  /** Spaces on both sides are cut, and nothing else. */
  lemma {:induction false} TrimCuts(before: string, s: string, after: string)
    requires s != "" && !IsSpace(s[0]) && !IsSpace(s[|s| - 1])
    requires forall i :: 0 <= i < |before| ==> IsSpace(before[i])
    requires forall i :: 0 <= i < |after| ==> IsSpace(after[i])
    ensures TrimRight(TrimLeft(before + s + after)) == s
    decreases |before|
  {
    hide IsSpace;
    var text := before + s + after;
    if before != "" {
      assert text[0] == before[0] && text[1..] == before[1..] + s + after;
      TrimCuts(before[1..], s, after);
    } else {
      assert text == s + after && text[0] == s[0];
      TrimRightCuts(s, after);
    }
  }

  // Terms and items.

  lemma RangeRoundTrip(t: Term, min: int, max: int)
    requires 0 <= min <= max <= 60
    ensures CronRange(TermText(t), min, max) == Bounds(t, min, max)
  {
    match t
    case Every =>
    case Single(v) =>
      DecimalIsDigits(v);
      DigitsHoldNo(Decimal(v), '-');
      AtoiReadsDecimal(v);
      assert IsDigit(Decimal(v)[0]) && "*"[0] == '*';
    case Between(a, b) =>
      DecimalIsDigits(a);
      DecimalIsDigits(b);
      DigitsHoldNo(Decimal(a), '-');
      DigitsHoldNo(Decimal(b), '-');
      AtoiReadsDecimal(a);
      AtoiReadsDecimal(b);
      var text := TermText(t);
      assert text == Decimal(a) + ['-'] + Decimal(b);
      assert text[|Decimal(a)|] == '-';
      assert |text| >= 3;
      SplitFirst(Decimal(a), Decimal(b), '-');
      SplitWhole(Decimal(b), '-');
  }

  ghost predicate Plain(s: string) {
    s != "" && forall i :: 0 <= i < |s| ==> IsDigit(s[i]) || s[i] == '*' || s[i] == '-'
  }

  lemma TermIsPlain(t: Term)
    ensures Plain(TermText(t))
  {
    match t
    case Every =>
    case Single(v) => DecimalIsDigits(v);
    case Between(a, b) =>
      DecimalIsDigits(a);
      DecimalIsDigits(b);
  }

  lemma PlainHoldsNo(s: string, c: char)
    requires Plain(s) && !IsDigit(c) && c != '*' && c != '-'
    ensures c !in s && !IsSpace(s[0]) && !IsSpace(s[|s| - 1])
  {
    assert IsDigit(s[0]) || s[0] == '*' || s[0] == '-';
    assert IsDigit(s[|s| - 1]) || s[|s| - 1] == '*' || s[|s| - 1] == '-';
  }

  /** A term with or without a step is parsed to its span. */
  lemma ItemRoundTrip(i: Item, min: int, max: int)
    requires 0 <= min <= max <= 60
    ensures ParseSegment(ItemText(i), min, max) == Denoted(i, min, max)
  {
    hide TrimLeft, TrimRight, CronRange, TermText, Atoi, Bounds, Decimal, Split;
    var term := TermText(i.term);
    TermIsPlain(i.term);
    PlainHoldsNo(term, '/');
    RangeRoundTrip(i.term, min, max);
    match i.step
    case None =>
      assert ItemText(i) == term;
      TrimKeeps(term);
    case Some(step) =>
      var text := ItemText(i);
      assert text == term + ['/'] + Decimal(step);
      DecimalIsDigits(step);
      AtoiReadsDecimal(step);
      DigitsHoldNo(Decimal(step), '/');
      assert IsDigit(Decimal(step)[|Decimal(step)| - 1]);
      assert text[0] == term[0] && text[|text| - 1] == Decimal(step)[|Decimal(step)| - 1];
      TrimKeeps(text);
      assert text[|term|] == '/';
      SplitFirst(term, Decimal(step), '/');
      SplitWhole(Decimal(step), '/');
  }

  lemma ItemHoldsNoComma(i: Item)
    ensures ',' !in ItemText(i)
  {
    TermIsPlain(i.term);
    PlainHoldsNo(TermText(i.term), ',');
    if i.step.Some? {
      DecimalIsDigits(i.step.value);
      DigitsHoldNo(Decimal(i.step.value), ',');
    }
  }

  lemma {:induction false} SegmentsRoundTrip(items: seq<Item>, min: int, max: int)
    requires 0 <= min <= max <= 60
    ensures Segments(ItemTexts(items), min, max) == AllDenoted(items, min, max)
    decreases |items|
  {
    if items == [] {
    } else {
      ItemRoundTrip(items[0], min, max);
      assert ItemTexts(items)[1..] == ItemTexts(items[1..]);
      SegmentsRoundTrip(items[1..], min, max);
    }
  }

  /** Whatever list of terms a field is written from, its text is parsed to the union of what the
      terms denote, and is refused exactly when one of them is out of bounds. */
  lemma FieldRoundTrip(items: seq<Item>, min: int, max: int, sundayAlias: bool)
    requires 0 <= min <= max <= 60 && items != []
    ensures FieldSet(Join(ItemTexts(items), ','), min, max, sundayAlias) ==
      match AllDenoted(items, min, max)
      case None => None
      case Some(segments) => Some(AllMarked(segments, sundayAlias))
  {
    forall i | 0 <= i < |items| ensures ',' !in ItemTexts(items)[i] {
      ItemHoldsNoComma(items[i]);
    }
    SplitJoined(ItemTexts(items), ',');
    SegmentsRoundTrip(items, min, max);
  }
}
