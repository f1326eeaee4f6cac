/** Facts about text and numbers that several parts share. */
module Texts {

  /** Unicode white space, which Go's `strings.TrimSpace` and `strings.Fields` cut at. */
  predicate IsSpace(c: char) {
    || c == ' ' || '\t' <= c <= '\r' || c == '\U{0085}' || c == '\U{00A0}' || c == '\U{1680}'
    || '\U{2000}' <= c <= '\U{200A}' || c == '\U{2028}' || c == '\U{2029}' || c == '\U{202F}'
    || c == '\U{205F}' || c == '\U{3000}'
  }

  /** One by one. */
  lemma SpacesAre(c: char)
    ensures IsSpace(c) <==> c in {
      ' ', '\t', '\n', '\U{000B}', '\U{000C}', '\r', '\U{0085}', '\U{00A0}', '\U{1680}', '\U{2000}', '\U{2001}',
      '\U{2002}', '\U{2003}', '\U{2004}', '\U{2005}', '\U{2006}', '\U{2007}', '\U{2008}', '\U{2009}', '\U{200A}',
      '\U{2028}', '\U{2029}', '\U{202F}', '\U{205F}', '\U{3000}'}
  {
    if '\t' <= c <= '\r' { assert c as int in {9, 10, 11, 12, 13}; }
    if '\U{2000}' <= c <= '\U{200A}' {
      assert c as int in {0x2000, 0x2001, 0x2002, 0x2003, 0x2004, 0x2005, 0x2006, 0x2007, 0x2008, 0x2009, 0x200A};
    }
  }
}

module Numbers {

  /** Division has one answer. */
  lemma DivUnique(n: int, d: int, q: int, r: int)
    requires d > 0 && n == q * d + r && 0 <= r < d
    ensures n / d == q && n % d == r
  {
    var q', r' := n / d, n % d;
    assert n == q' * d + r' && 0 <= r' < d;
    assert q * d - q' * d == (q - q') * d;
    assert (q' - q) * d == -((q - q') * d);
    if q > q' { AtLeastOnce(q - q', d); }
    if q < q' { AtLeastOnce(q' - q, d); }
  }

  lemma AtLeastOnce(a: int, d: int)
    requires a >= 1 && d > 0
    ensures a * d >= d
  {
    assert a * d == (a - 1) * d + d;
    assert (a - 1) * d >= 0;
  }
}
