/**
 * The token classes and the two matching primitives out of which the four
 * happening-line grammars are built: a literal segment, and the greedy run of one
 * character class (`[a-z0-9_\-]*`, `[a-zA-Z]*`, `[IV]*`, `[\d,]*`).
 */
module Lexical {
  import opened Results

  /** `[a-z0-9_\-]`: a character of an actor (nation or region) identifier. */
  predicate IsActorChar(c: char) {
    'a' <= c <= 'z' || '0' <= c <= '9' || c == '_' || c == '-'
  }

  /** `[a-zA-Z]` */
  predicate IsLetter(c: char) {
    'a' <= c <= 'z' || 'A' <= c <= 'Z'
  }

  /** `[IV]` */
  predicate IsNumeralChar(c: char) {
    c == 'I' || c == 'V'
  }

  predicate IsAsciiDigit(c: char) {
    '0' <= c <= '9'
  }

  /** Ten consecutive code points starting at `zero`, as every block of decimal digits in Unicode is laid out. */
  predicate InDigitBlock(x: int, zero: int) {
    zero <= x < zero + 10
  }

  /**
   * The first code point of each block of decimal digits (general category
   * Nd) of the Basic Multilingual Plane outside ASCII: Arabic-Indic, Extended
   * Arabic-Indic, NKo, the Indic scripts, Thai, Lao, Tibetan, Myanmar, Khmer,
   * Mongolian, Limbu, New Tai Lue, Tai Tham, Balinese, Sundanese, Lepcha,
   * Ol Chiki, Vai, Saurashtra, Kayah Li, Javanese, Cham, Meetei Mayek and the
   * fullwidth digits. None lies below U+0660.
   */
  const BMP_DIGIT_ZEROS: seq<int> := [
    0x0660, 0x06F0, 0x07C0, 0x0966, 0x09E6, 0x0A66, 0x0AE6, 0x0B66, 0x0BE6,
    0x0C66, 0x0CE6, 0x0D66, 0x0DE6, 0x0E50, 0x0ED0, 0x0F20, 0x1040, 0x1090,
    0x17E0, 0x1810, 0x1946, 0x19D0, 0x1A80, 0x1A90, 0x1B50, 0x1BB0, 0x1C40,
    0x1C50, 0xA620, 0xA8D0, 0xA900, 0xA9D0, 0xA9F0, 0xAA50, 0xABF0, 0xFF10]

  predicate IsOtherBmpDigit(x: int) {
    0x0660 <= x && exists i :: 0 <= i < |BMP_DIGIT_ZEROS| && InDigitBlock(x, BMP_DIGIT_ZEROS[i])
  }

  /** The regex crate's Unicode-aware `\d`. */
  predicate IsDecimalDigit(c: char) {
    IsAsciiDigit(c) || IsOtherBmpDigit(c as int)
  }

  /** `[\d,]`: a character of a comma-grouped quantity. */
  predicate IsQuantityChar(c: char) {
    IsDecimalDigit(c) || c == ','
  }

  datatype CharClass = Actor | Letters | Numeral | Quantity

  predicate InClass(c: char, k: CharClass) {
    match k
    case Actor => IsActorChar(c)
    case Letters => IsLetter(c)
    case Numeral => IsNumeralChar(c)
    case Quantity => IsQuantityChar(c)
  }

  predicate AllIn(s: string, k: CharClass) {
    forall i :: 0 <= i < |s| ==> InClass(s[i], k)
  }

  /** `rest` cannot extend a run of class `k`: it is empty or starts outside the class. */
  predicate StopsRun(rest: string, k: CharClass) {
    rest == [] || !InClass(rest[0], k)
  }

  /**
   * The greedy run `k*` at the front of `s`, and what follows it. The run is
   * maximal, so when the next segment of a grammar starts with a character
   * outside `k` this is the only split a regex match can use.
   */
  function Span(s: string, k: CharClass): (r: (string, string))
    ensures r.0 + r.1 == s
    ensures AllIn(r.0, k)
    ensures StopsRun(r.1, k)
    decreases |s|
  {
    if s != [] && InClass(s[0], k) then
      var (run, rest) := Span(s[1..], k);
      assert s == [s[0]] + (run + rest);
      ([s[0]] + run, rest)
    else
      ([], s)
  }

  /** A run of class `k` followed by a character outside it is split exactly there. */
  lemma {:induction false} SpanOf(run: string, rest: string, k: CharClass)
    requires AllIn(run, k) && StopsRun(rest, k)
    ensures Span(run + rest, k) == (run, rest)
  {
    if run != [] {
      assert (run + rest)[0] == run[0];
      assert (run + rest)[1..] == run[1..] + rest;
      SpanOf(run[1..], rest, k);
      assert [run[0]] + run[1..] == run;
    } else {
      assert run + rest == rest;
    }
  }

  lemma Assoc(a: string, b: string, c: string)
    ensures a + (b + c) == a + b + c
  {
  }

  /** The literal segment `lit` at the front of `s`, and what follows it. */
  function Lit(s: string, lit: string): (r: Option<string>)
    ensures r.Some? <==> lit <= s
    ensures r.Some? ==> s == lit + r.value
  {
    if lit <= s then Some(s[|lit|..]) else None
  }

  lemma LitOf(lit: string, rest: string)
    ensures Lit(lit + rest, lit) == Some(rest)
  {
    assert lit <= lit + rest;
    assert (lit + rest)[|lit|..] == rest;
  }

  /** Two literals that disagree at some position cannot both start the same text. */
  lemma LitsClash(s: string, a: string, b: string, i: nat)
    requires i < |a| && i < |b| && a[i] != b[i]
    ensures !(a <= s && b <= s)
  {
  }

  predicate EndsWith(s: string, suffix: string) {
    |suffix| <= |s| && s[|s| - |suffix|..] == suffix
  }

  lemma EndsWithOf(pre: string, suffix: string)
    ensures EndsWith(pre + suffix, suffix)
  {
    assert (pre + suffix)[|pre|..] == suffix;
  }

  /** Two suffixes that differ at the same distance from the end cannot both end one text. */
  lemma EndingsClash(s: string, a: string, b: string, i: nat)
    requires EndsWith(s, a)
    requires i < |a| && i < |b| && a[|a| - 1 - i] != b[|b| - 1 - i]
    ensures !EndsWith(s, b)
  {
    assert a[|a| - 1 - i] == s[|s| - 1 - i];
  }
}
