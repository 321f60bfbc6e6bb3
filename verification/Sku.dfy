/** SKU numbers as text (catalog.py, `sku_id` and `parse_sku_id`). */
module Sku {
  import opened Wrappers
  import opened Digits

  const LIMIT: nat := 100_000_000

  /** What the host language's text functions do to one character: `str.strip`
      drops white space, `str.upper` may yield several characters, and `\d` with
      `int` read digits of any script. */
  datatype TextRules = TextRules(
    space: char -> bool,
    upper: char -> string,
    digit: char -> Option<Digit>)

  /** The rules treat the characters of a canonical SKU as ASCII prescribes. */
  ghost predicate Faithful(r: TextRules) {
    && ReadsAscii(r.digit)
    && forall c | c in "SKU-0123456789" :: !r.space(c) && r.upper(c) == [c]
  }

  function LStrip(space: char -> bool, s: string): string {
    if s != [] && space(s[0]) then LStrip(space, s[1..]) else s
  }

  function RStrip(space: char -> bool, s: string): string {
    if s != [] && space(s[|s| - 1]) then RStrip(space, s[..|s| - 1]) else s
  }

  function Strip(space: char -> bool, s: string): string {
    RStrip(space, LStrip(space, s))
  }

  function Upper(upper: char -> string, s: string): string {
    if s == [] then [] else upper(s[0]) + Upper(upper, s[1..])
  }

  function SkuId(n: nat): string {
    "SKU-" + Padded(n, 8)
  }

  /** The index a text denotes before the bound on the catalog's size is applied. */
  function SkuIndex(r: TextRules, raw: string): Option<nat> {
    var s := Upper(r.upper, Strip(r.space, raw));
    if |s| == 12 && s[..4] == "SKU-" then Number(r.digit, s[4..]) else None
  }

  function ParseSkuId(r: TextRules, total: nat, raw: string): Option<nat> {
    match SkuIndex(r, raw)
    case None => None
    case Some(n) => if n < total then Some(n) else None
  }

  lemma {:induction false} UpperFixed(upper: char -> string, s: string)
    requires forall c | c in s :: upper(c) == [c]
    ensures Upper(upper, s) == s
  {
    if s != [] {
      UpperFixed(upper, s[1..]);
      assert s == [s[0]] + s[1..];
    }
  }

  lemma CanonicalText(r: TextRules, n: nat)
    requires Faithful(r)
    ensures Upper(r.upper, Strip(r.space, SkuId(n))) == SkuId(n)
  {
    var s := SkuId(n);
    var d := Padded(n, 8);
    forall c | c in s ensures c in "SKU-0123456789" {
      if c in d {
        assert "SKU-0123456789"[4 + (c as int - '0' as int)] == c;
      }
    }
    assert s[0] in "SKU-0123456789" && s[|s| - 1] in s;
    assert Strip(r.space, s) == s;
    UpperFixed(r.upper, s);
  }

  /** Printing then parsing: it gives the index back exactly for indices that
      fit eight digits and lie in the catalog, and nothing for any other. */
  lemma ParseOfSkuId(r: TextRules, total: nat, n: nat)
    requires Faithful(r)
    ensures ParseSkuId(r, total, SkuId(n)) == if n < total && n < LIMIT then Some(n) else None
    ensures SkuIndex(r, SkuId(n)) == if n < LIMIT then Some(n) else None
  {
    CanonicalText(r, n);
    NumeralLength(n, 8);
    assert Pow10(8) == LIMIT by { Pow10Of8(); }
    NumberOfPadded(r.digit, n, 8);
    assert SkuId(n)[4..] == Padded(n, 8);
    assert SkuId(n)[..4] == "SKU-";
  }

  lemma Pow10Of8()
    ensures Pow10(8) == LIMIT
  {
    assert Pow10(2) == 100;
    assert Pow10(4) == 10 * Pow10(3) && Pow10(3) == 10 * Pow10(2);
    assert Pow10(6) == 10 * Pow10(5) && Pow10(5) == 10 * Pow10(4);
    assert Pow10(8) == 10 * Pow10(7) && Pow10(7) == 10 * Pow10(6);
  }

  /** Whatever the caller's spelling, a parsed text has one canonical text, and
      that text parses to the same index. */
  lemma SkuIdOfParse(r: TextRules, total: nat, raw: string)
    requires Faithful(r)
    requires ParseSkuId(r, total, raw).Some?
    ensures var n := ParseSkuId(r, total, raw).value;
            n < total && n < LIMIT && ParseSkuId(r, total, SkuId(n)) == Some(n)
  {
    var s := Upper(r.upper, Strip(r.space, raw));
    FoldBound(r.digit, s[4..]);
    Pow10Of8();
    ParseOfSkuId(r, total, ParseSkuId(r, total, raw).value);
  }

  lemma SkuIdInjective(n: nat, m: nat)
    requires SkuId(n) == SkuId(m)
    ensures n == m
  {
    assert SkuId(n)[4..] == Padded(n, 8) && SkuId(m)[4..] == Padded(m, 8);
    PaddedInjective(n, m, 8);
  }

  // --- which spellings parse ------------------------------------------------------------

  lemma {:induction false} StripOfPadded(space: char -> bool, before: string, s: string, after: string)
    requires (forall c :: c in before ==> space(c)) && forall c :: c in after ==> space(c)
    ensures Strip(space, before + s + after) == Strip(space, s)
  {
    LStripAll(space, before, s + after);
    assert before + s + after == before + (s + after);
    LStripTail(space, s, after);
    if LStrip(space, s) == [] {
      LStripIsTail(space, after);
      assert [] + LStrip(space, after) == LStrip(space, after);
      RStripAll(space, [], LStrip(space, after));
    } else {
      RStripAll(space, LStrip(space, s), after);
    }
  }

  lemma {:induction false} LStripAll(space: char -> bool, before: string, s: string)
    requires forall c :: c in before ==> space(c)
    ensures LStrip(space, before + s) == LStrip(space, s)
  {
    if before == [] {
      assert before + s == s;
    } else {
      assert before[0] in before && (before + s)[1..] == before[1..] + s;
      assert forall c :: c in before[1..] ==> c in before;
      LStripAll(space, before[1..], s);
    }
  }

  lemma {:induction false} RStripAll(space: char -> bool, s: string, after: string)
    requires forall c :: c in after ==> space(c)
    ensures RStrip(space, s + after) == RStrip(space, s)
  {
    if after == [] {
      assert s + after == s;
    } else {
      var k := |after| - 1;
      assert after[k] in after && (s + after)[..|s + after| - 1] == s + after[..k];
      assert forall c :: c in after[..k] ==> c in after;
      RStripAll(space, s, after[..k]);
    }
  }

  lemma {:induction false} LStripTail(space: char -> bool, s: string, after: string)
    ensures LStrip(space, s + after) ==
            if LStrip(space, s) == [] then LStrip(space, after) else LStrip(space, s) + after
  {
    if s == [] {
      assert s + after == after;
    } else if space(s[0]) {
      assert (s + after)[1..] == s[1..] + after;
      LStripTail(space, s[1..], after);
    }
  }

  lemma {:induction false} LStripIsTail(space: char -> bool, s: string)
    ensures forall c :: c in LStrip(space, s) ==> c in s
  {
    if s != [] && space(s[0]) {
      LStripIsTail(space, s[1..]);
    }
  }

  /** White space around a spelling never matters. */
  lemma ParseIgnoresSpace(r: TextRules, total: nat, before: string, raw: string, after: string)
    requires (forall c :: c in before ==> r.space(c)) && forall c :: c in after ==> r.space(c)
    ensures ParseSkuId(r, total, before + raw + after) == ParseSkuId(r, total, raw)
  {
    StripOfPadded(r.space, before, raw, after);
  }

  lemma {:induction false} UpperAlike(upper: char -> string, a: string, b: string)
    requires |a| == |b| && forall i :: 0 <= i < |a| ==> upper(a[i]) == upper(b[i])
    ensures Upper(upper, a) == Upper(upper, b)
  {
    if a != [] {
      UpperAlike(upper, a[1..], b[1..]);
    }
  }

  /** Nor does case: spellings that agree in upper case, character by character, and have no
      space at their ends parse alike. */
  lemma ParseIgnoresCase(r: TextRules, total: nat, a: string, b: string)
    requires |a| == |b| && forall i :: 0 <= i < |a| ==> r.upper(a[i]) == r.upper(b[i])
    requires Strip(r.space, a) == a && Strip(r.space, b) == b
    ensures ParseSkuId(r, total, a) == ParseSkuId(r, total, b)
  {
    UpperAlike(r.upper, a, b);
  }

  /** Where only ASCII digits read, exactly the canonical text of an index in the catalog
      parses to it, up to case and surrounding space. */
  lemma ParseAsciiExactly(r: TextRules, total: nat, raw: string, n: nat)
    requires Faithful(r) && forall c :: r.digit(c) == AsciiDigit(c)
    ensures ParseSkuId(r, total, raw) == Some(n) <==>
            n < total && n < LIMIT && Upper(r.upper, Strip(r.space, raw)) == SkuId(n)
  {
    hide Strip, Upper, Number;
    var s := Upper(r.upper, Strip(r.space, raw));
    if ParseSkuId(r, total, raw) == Some(n) {
      SkuIdOfParse(r, total, raw);
      NumberText(r.digit, s[4..], n);
      assert s == s[..4] + s[4..];
    }
    if n < LIMIT && s == SkuId(n) {
      NumeralLength(n, 8);
      Pow10Of8();
      NumberOfPadded(r.digit, n, 8);
      assert s[4..] == Padded(n, 8) && s[..4] == "SKU-";
    }
  }

  lemma PaddedLength(n: nat)
    requires |Numeral(n)| <= 8
    ensures |Padded(n, 8)| == 8
  {
  }

  /** Eight ASCII digits are the padded numeral of what they read as. */
  lemma NumberText(digit: char -> Option<Digit>, s: string, n: nat)
    requires (forall c :: digit(c) == AsciiDigit(c)) && |s| == 8 && Number(digit, s) == Some(n)
    ensures s == Padded(n, 8)
  {
    hide Padded, Fold;
    FoldBound(digit, s);
    Pow10Of8();
    NumeralLength(n, 8);
    NumberOfPadded(digit, n, 8);
    PaddedLength(n);
    FoldInjective(digit, s, Padded(n, 8));
  }
}
