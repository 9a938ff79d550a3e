/**
 * Machine integers and the quantity normalisation of `from_event`: strip the
 * thousands commas (`split(',').collect::<String>()`) and read the rest as a
 * `usize` (`parse::<usize>()`), where `usize` is taken to be 64 bits wide.
 */
module Quantity {
  import opened Results
  import opened Lexical

  const USIZE_MAX: int := 0xFFFF_FFFF_FFFF_FFFF

  /** Rust's `u64`, the record id and timestamp. */
  type U64 = x: int | 0 <= x <= USIZE_MAX
  /** Rust's `usize` on a 64-bit target. */
  type Usize = x: int | 0 <= x <= USIZE_MAX

  /** The kinds of `ParseIntError` that `parse::<usize>` reports. */
  datatype IntErrorKind = Empty | InvalidDigit | PosOverflow

  /** The text with every comma removed and every other character kept in order. */
  function StripCommas(s: string): (r: string)
    ensures forall i :: 0 <= i < |r| ==> r[i] != ','
    ensures |r| <= |s|
    ensures r == [] <==> forall i :: 0 <= i < |s| ==> s[i] == ','
  {
    if s == [] then []
    else (if s[0] == ',' then [] else [s[0]]) + StripCommas(s[1..])
  }

  lemma {:induction false} StripCommasAppend(a: string, b: string)
    ensures StripCommas(a + b) == StripCommas(a) + StripCommas(b)
  {
    if a == [] {
      assert a + b == b;
    } else {
      assert (a + b)[0] == a[0];
      assert (a + b)[1..] == a[1..] + b;
      StripCommasAppend(a[1..], b);
    }
  }

  /** Text without commas is left as it is. */
  lemma {:induction false} StripCommasNoComma(s: string)
    requires forall i :: 0 <= i < |s| ==> s[i] != ','
    ensures StripCommas(s) == s
  {
    if s != [] {
      StripCommasNoComma(s[1..]);
      assert [s[0]] + s[1..] == s;
    }
  }

  predicate AllAsciiDigits(s: string) {
    forall i :: 0 <= i < |s| ==> IsAsciiDigit(s[i])
  }

  function DigitValue(c: char): (d: nat)
    requires IsAsciiDigit(c)
    ensures d < 10
  {
    c as int - '0' as int
  }

  /** The value of a string of ASCII decimal digits, most significant first. */
  function Value(s: string): nat
    requires AllAsciiDigits(s)
  {
    if s == [] then 0 else Value(s[..|s| - 1]) * 10 + DigitValue(s[|s| - 1])
  }

  lemma ValueSnoc(s: string, c: char)
    requires AllAsciiDigits(s) && IsAsciiDigit(c)
    ensures AllAsciiDigits(s + [c])
    ensures Value(s + [c]) == Value(s) * 10 + DigitValue(c)
  {
    assert (s + [c])[..|s|] == s;
  }

  /** Appending digits never makes the value smaller. */
  lemma {:induction false} ValueGrows(s: string, t: string)
    requires AllAsciiDigits(s + t)
    ensures AllAsciiDigits(s) && AllAsciiDigits(t)
    ensures Value(s) <= Value(s + t)
    decreases |t|
  {
    assert forall i :: 0 <= i < |s| ==> (s + t)[i] == s[i];
    assert forall i :: 0 <= i < |t| ==> (s + t)[|s| + i] == t[i];
    if t == [] {
      assert s + t == s;
    } else {
      var u := t[..|t| - 1];
      assert (s + t)[..|s + t| - 1] == s + u;
      ValueGrows(s, u);
    }
  }

  /** The digits `parse::<usize>` reads: the text after an optional leading `+`. */
  function DigitsOf(s: string): string {
    if s != [] && s[0] == '+' then s[1..] else s
  }

  /** The texts `parse::<usize>` accepts. */
  predicate IsUsizeText(s: string) {
    && s != []
    && s != "+"
    && AllAsciiDigits(DigitsOf(s))
    && Value(DigitsOf(s)) <= USIZE_MAX
  }

  /**
   * The digit loop of `from_str_radix`: each character is checked to be a
   * digit, then the product and the sum are checked for overflow.
   */
  function Accumulate(s: string, acc: Usize): (r: Result<Usize, IntErrorKind>)
    ensures r != Err(Empty)
    decreases |s|
  {
    if s == [] then Ok(acc)
    else if !IsAsciiDigit(s[0]) then Err(InvalidDigit)
    else
      var next := acc * 10 + DigitValue(s[0]);
      if next > USIZE_MAX then Err(PosOverflow) else Accumulate(s[1..], next)
  }

  /** Continuing the loop over `s` after having read `p` reads `p + s`. */
  lemma {:induction false} AccumulateDigits(p: string, s: string)
    requires AllAsciiDigits(p + s)
    requires AllAsciiDigits(p) && Value(p) <= USIZE_MAX
    ensures Accumulate(s, Value(p)) == if Value(p + s) <= USIZE_MAX then Ok(Value(p + s)) else Err(PosOverflow)
    decreases |s|
  {
    if s == [] {
      assert p + s == p;
    } else {
      assert (p + s)[|p|] == s[0];
      var q := p + [s[0]];
      assert q + s[1..] == p + s;
      ValueSnoc(p, s[0]);
      ValueGrows(q, s[1..]);
      if Value(q) <= USIZE_MAX {
        AccumulateDigits(q, s[1..]);
      }
    }
  }

  /** A text holding a non-digit is always refused, whether by its digit or by an earlier overflow. */
  lemma {:induction false} AccumulateNonDigit(s: string, acc: Usize)
    requires !AllAsciiDigits(s)
    ensures Accumulate(s, acc).Err?
    decreases |s|
  {
    if IsAsciiDigit(s[0]) {
      assert !AllAsciiDigits(s[1..]) by {
        var i :| 0 <= i < |s| && !IsAsciiDigit(s[i]);
        assert s[1..][i - 1] == s[i];
      }
      var next := acc * 10 + DigitValue(s[0]);
      if next <= USIZE_MAX {
        AccumulateNonDigit(s[1..], next);
      }
    }
  }

  /**
   * `parse::<usize>`: empty text is `Empty`, a lone sign is `InvalidDigit`,
   * a leading `+` is skipped, then the digit loop runs.
   */
  function ParseUsize(s: string): (r: Result<Usize, IntErrorKind>)
    ensures r.Ok? <==> IsUsizeText(s)
    ensures r.Ok? ==> r.value == Value(DigitsOf(s))
    ensures r == Err(Empty) <==> s == []
  {
    if s == [] then Err(Empty)
    else if s == "+" || s == "-" then Err(InvalidDigit)
    else
      var digits := DigitsOf(s);
      if AllAsciiDigits(digits) then
        assert [] + digits == digits;
        AccumulateDigits([], digits);
        Accumulate(digits, 0)
      else
        AccumulateNonDigit(digits, 0);
        Accumulate(digits, 0)
  }

  /** The quantity normalisation of `from_event`. */
  function ParseQuantity(s: string): (r: Result<Usize, IntErrorKind>)
    ensures r.Ok? <==> IsUsizeText(StripCommas(s))
    ensures r.Ok? ==> r.value == Value(DigitsOf(StripCommas(s)))
    ensures r == Err(Empty) <==> forall i :: 0 <= i < |s| ==> s[i] == ','
  {
    ParseUsize(StripCommas(s))
  }

  function DigitChar(d: nat): (c: char)
    requires d < 10
    ensures IsAsciiDigit(c) && DigitValue(c) == d
  {
    ('0' as int + d) as char
  }

  /** The shortest decimal numeral of `n`. */
  function Decimal(n: nat): string
    decreases n
  {
    if n < 10 then [DigitChar(n)] else Decimal(n / 10) + [DigitChar(n % 10)]
  }

  lemma {:induction false} DecimalValue(n: nat)
    ensures AllAsciiDigits(Decimal(n)) && Value(Decimal(n)) == n
    ensures Decimal(n) != [] && Decimal(n)[0] != '+'
    decreases n
  {
    if n < 10 {
      assert Decimal(n)[..0] == [];
    } else {
      DecimalValue(n / 10);
      ValueSnoc(Decimal(n / 10), DigitChar(n % 10));
    }
  }

  /** Three digits with leading zeros, one thousands group. */
  function Group3(n: nat): string
    requires n < 1000
  {
    [DigitChar(n / 100), DigitChar(n / 10 % 10), DigitChar(n % 10)]
  }

  /** `n` written with a comma between thousands groups, as happening lines write quantities ("1,250"). */
  function WithThousands(n: nat): string
    decreases n
  {
    if n < 1000 then Decimal(n) else WithThousands(n / 1000) + "," + Group3(n % 1000)
  }

  lemma Group3Digits(m: nat)
    requires m < 1000
    ensures AllAsciiDigits(Group3(m))
    ensures DigitValue(Group3(m)[0]) * 100 + DigitValue(Group3(m)[1]) * 10 + DigitValue(Group3(m)[2]) == m
  {
    var a, b, c := m / 100, m / 10 % 10, m % 10;
    assert m / 10 == a * 10 + b;
    assert m == (m / 10) * 10 + c;
  }

  lemma Snoc3(d: string, x: char, y: char, z: char)
    requires AllAsciiDigits(d) && IsAsciiDigit(x) && IsAsciiDigit(y) && IsAsciiDigit(z)
    ensures AllAsciiDigits(d + [x, y, z])
    ensures Value(d + [x, y, z]) == Value(d) * 1000 + DigitValue(x) * 100 + DigitValue(y) * 10 + DigitValue(z)
  {
    assert d + [x, y, z] == ((d + [x]) + [y]) + [z];
    ValueSnoc(d, x);
    ValueSnoc(d + [x], y);
    ValueSnoc((d + [x]) + [y], z);
  }

  lemma Group3Value(d: string, m: nat)
    requires m < 1000 && AllAsciiDigits(d)
    ensures AllAsciiDigits(d + Group3(m))
    ensures Value(d + Group3(m)) == Value(d) * 1000 + m
  {
    var g := Group3(m);
    Group3Digits(m);
    assert g == [g[0], g[1], g[2]];
    Snoc3(d, g[0], g[1], g[2]);
  }

  /** Dropping the commas of `head`, a comma and a thousands group keeps the group whole. */
  lemma StripGroup(head: string, m: nat)
    requires m < 1000
    ensures StripCommas(head + "," + Group3(m)) == StripCommas(head) + Group3(m)
  {
    var g := Group3(m);
    StripCommasAppend(head + ",", g);
    StripCommasAppend(head, ",");
    StripCommasNoComma(g);
  }

  lemma {:induction false} WithThousandsChars(n: nat)
    ensures AllIn(WithThousands(n), Quantity)
    decreases n
  {
    if n < 1000 {
      DecimalValue(n);
    } else {
      WithThousandsChars(n / 1000);
    }
  }

  /** Removing the commas of a grouped numeral leaves the decimal digits of the number. */
  lemma {:induction false} WithThousandsDigits(n: nat)
    ensures AllAsciiDigits(StripCommas(WithThousands(n)))
    ensures Value(StripCommas(WithThousands(n))) == n
    ensures StripCommas(WithThousands(n)) != [] && StripCommas(WithThousands(n))[0] != '+'
    decreases n
  {
    if n < 1000 {
      DecimalValue(n);
      StripCommasNoComma(Decimal(n));
    } else {
      var head := WithThousands(n / 1000);
      var g := Group3(n % 1000);
      WithThousandsDigits(n / 1000);
      StripGroup(head, n % 1000);
      var d := StripCommas(head);
      Group3Value(d, n % 1000);
      assert (d + g)[0] == d[0];
    }
  }

  /** Reading a comma-grouped numeral gives back the number, up to the 64-bit limit. */
  lemma QuantityRoundTrip(n: nat)
    requires n <= USIZE_MAX
    ensures AllIn(WithThousands(n), Quantity)
    ensures ParseQuantity(WithThousands(n)) == Ok(n)
  {
    WithThousandsChars(n);
    WithThousandsDigits(n);
  }

  /** Past the 64-bit limit, the same text is refused as an overflow. */
  lemma QuantityOverflow(n: nat)
    requires n > USIZE_MAX
    ensures AllIn(WithThousands(n), Quantity)
    ensures ParseQuantity(WithThousands(n)) == Err(PosOverflow)
  {
    WithThousandsChars(n);
    WithThousandsDigits(n);
    var d := StripCommas(WithThousands(n));
    assert [] + d == d;
    AccumulateDigits([], d);
  }
}
