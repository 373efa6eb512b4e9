/** The Kotlin standard-library text operations the task screen relies on:
    `Char.isDigit` and `String.filter` (the ID field's input filter),
    `Char.isWhitespace` and `String.trim` (the new-name field),
    `String.toIntOrNull` and `Int.toString` (the ID, parsed and printed back). */
module KotlinText {

  datatype Option<+T> = None | Some(value: T)

  const INT_MIN: int := -0x8000_0000
  const INT_MAX: int := 0x7FFF_FFFF

  /** Kotlin's `Int`: a signed 32-bit integer. */
  type Int32 = x: int | -0x8000_0000 <= x <= 0x7FFF_FFFF

  // ---------------------------------------------------------------------------
  // Digits and the ID field's filter
  // ---------------------------------------------------------------------------

  /** `Char.isDigit`, restricted to the ASCII digits. */
  predicate IsDigit(c: char) {
    '0' <= c <= '9'
  }

  predicate AllDigits(s: string) {
    forall i :: 0 <= i < |s| ==> IsDigit(s[i])
  }

  /** `s.filter { it.isDigit() }`: the digits of `s`, in their order. */
  function FilterDigits(s: string): (r: string)
    ensures AllDigits(r)
    ensures |r| <= |s|
  {
    if s == [] then []
    else (if IsDigit(s[0]) then [s[0]] else []) + FilterDigits(s[1..])
  }

  /** Filtering distributes over concatenation: together with the one-character
      case it determines the filter completely (order is kept). */
  lemma {:induction false} FilterDigitsAppend(a: string, b: string)
    ensures FilterDigits(a + b) == FilterDigits(a) + FilterDigits(b)
  {
    if a == [] {
      assert a + b == b;
    } else {
      assert (a + b)[0] == a[0];
      assert (a + b)[1..] == a[1..] + b;
      FilterDigitsAppend(a[1..], b);
    }
  }

  /** Every digit is kept as often as it was typed, and nothing else is kept. */
  lemma {:induction false} FilterDigitsCounts(s: string, c: char)
    ensures multiset(FilterDigits(s))[c] == if IsDigit(c) then multiset(s)[c] else 0
  {
    if s != [] {
      assert s == [s[0]] + s[1..];
      assert multiset(s) == multiset([s[0]]) + multiset(s[1..]);
      FilterDigitsCounts(s[1..], c);
    }
  }

  /** The filter leaves a string alone exactly when it holds only digits. */
  lemma {:induction false} FilterDigitsFixpoint(s: string)
    ensures FilterDigits(s) == s <==> AllDigits(s)
  {
    if AllDigits(s) && s != [] {
      FilterDigitsFixpoint(s[1..]);
    }
  }

  /** Filtering twice is filtering once. */
  lemma FilterDigitsIdempotent(s: string)
    ensures FilterDigits(FilterDigits(s)) == FilterDigits(s)
  {
    FilterDigitsFixpoint(FilterDigits(s));
  }

  // ---------------------------------------------------------------------------
  // Whitespace and trim
  // ---------------------------------------------------------------------------

  /** `Char.isWhitespace` on the JVM: `Character.isWhitespace` or
      `Character.isSpaceChar` (the control characters TAB to CR and FS to US,
      and the space, line and paragraph separators). */
  predicate IsWhitespace(c: char) {
    ('\t' <= c <= '\r') || ('\U{1C}' <= c <= '\U{1F}') || c == ' '
    || c == '\U{A0}' || c == '\U{1680}' || ('\U{2000}' <= c <= '\U{200A}')
    || c == '\U{2028}' || c == '\U{2029}' || c == '\U{202F}' || c == '\U{205F}'
    || c == '\U{3000}'
  }

  /** Non-empty, and neither starts nor ends with whitespace. */
  predicate IsTrimmedName(s: string) {
    s != [] && !IsWhitespace(s[0]) && !IsWhitespace(s[|s| - 1])
  }

  /** Drops the leading whitespace: the result is a suffix of `s`. */
  function TrimStart(s: string): (r: string)
    ensures |r| <= |s| && r == s[|s| - |r|..]
    ensures forall i :: 0 <= i < |s| - |r| ==> IsWhitespace(s[i])
    ensures r != [] ==> !IsWhitespace(r[0])
  {
    if s != [] && IsWhitespace(s[0]) then TrimStart(s[1..]) else s
  }

  /** Drops the trailing whitespace: the result is a prefix of `s`. */
  function TrimEnd(s: string): (r: string)
    ensures |r| <= |s| && r == s[..|r|]
    ensures forall i :: |r| <= i < |s| ==> IsWhitespace(s[i])
    ensures r != [] ==> !IsWhitespace(r[|r| - 1])
  {
    if s != [] && IsWhitespace(s[|s| - 1]) then TrimEnd(s[..|s| - 1]) else s
  }

  /** `String.trim()`: the slice of `s` left after dropping whitespace at both
      ends. It is empty exactly when `s` is all whitespace, and otherwise is a
      trimmed name. */
  function Trim(s: string): (r: string)
    ensures r == [] <==> forall i :: 0 <= i < |s| ==> IsWhitespace(s[i])
    ensures r != [] ==> IsTrimmedName(r)
  {
    var t := TrimStart(s);
    var r := TrimEnd(t);
    assert r != [] ==> r[0] == t[0] && t[0] == s[|s| - |t|];
    r
  }

  /** A prefix `r` of a suffix `t = s[a..]` is the slice `s[a..a + |r|]`, and
      whitespace after `r` in `t` is whitespace after that slice in `s`. */
  lemma PrefixOfSuffix(s: string, t: string, r: string, a: nat)
    requires a <= |s| && t == s[a..] && |r| <= |t| && r == t[..|r|]
    requires forall i :: |r| <= i < |t| ==> IsWhitespace(t[i])
    ensures a + |r| <= |s| && r == s[a..a + |r|]
    ensures forall i :: a + |r| <= i < |s| ==> IsWhitespace(s[i])
  {
    forall i | a + |r| <= i < |s|
      ensures IsWhitespace(s[i])
    {
      assert s[i] == t[i - a];
    }
  }

  /** How many whitespace characters `trim()` drops from the front of `s`. */
  function LeadingWhitespace(s: string): nat {
    |s| - |TrimStart(s)|
  }

  /** `trim()` keeps exactly the part of `s` between its leading and its
      trailing whitespace. */
  lemma TrimIsSlice(s: string)
    ensures LeadingWhitespace(s) + |Trim(s)| <= |s|
    ensures Trim(s) == s[LeadingWhitespace(s)..LeadingWhitespace(s) + |Trim(s)|]
    ensures forall i :: 0 <= i < LeadingWhitespace(s) ==> IsWhitespace(s[i])
    ensures forall i :: LeadingWhitespace(s) + |Trim(s)| <= i < |s| ==> IsWhitespace(s[i])
  {
    PrefixOfSuffix(s, TrimStart(s), Trim(s), LeadingWhitespace(s));
  }

  /** A trimmed name is its own trim, so trimming twice is trimming once. */
  lemma {:induction false} TrimIdempotent(s: string)
    ensures IsTrimmedName(s) ==> Trim(s) == s
    ensures Trim(Trim(s)) == Trim(s)
  {
    var r := Trim(s);
    if r != [] {
      assert TrimStart(r) == r;
      assert TrimEnd(r) == r;
    }
    if IsTrimmedName(s) {
      assert TrimStart(s) == s;
      assert TrimEnd(s) == s;
    }
  }

  // ---------------------------------------------------------------------------
  // Decimal integers: toIntOrNull and toString
  // ---------------------------------------------------------------------------

  function DigitValue(c: char): nat
    requires IsDigit(c)
  {
    (c as int) - ('0' as int)
  }

  /** The value of a string of decimal digits (0 for the empty string). */
  function DecimalValue(s: string): nat
    requires AllDigits(s)
  {
    if s == [] then 0 else DecimalValue(s[..|s| - 1]) * 10 + DigitValue(s[|s| - 1])
  }

  /** `String.toIntOrNull()` in radix 10: an optional leading `-` or `+`, then
      at least one digit, and a value inside Kotlin's `Int` range; `None` (null)
      for anything else, including digit strings that overflow `Int`. */
  function ParseInt(s: string): (r: Option<Int32>)
  {
    if s == [] then None
    else if s[0] < '0' then
      var digits := s[1..];
      if digits == [] || !AllDigits(digits) then None
      else if s[0] == '-' then
        var n: int := DecimalValue(digits);
        if n <= -INT_MIN then Some(-n) else None
      else if s[0] == '+' then
        if DecimalValue(digits) <= INT_MAX then Some(DecimalValue(digits)) else None
      else None
    else if AllDigits(s) && DecimalValue(s) <= INT_MAX then Some(DecimalValue(s))
    else None
  }

  /** On the strings the ID field can hold (digits only) `ParseInt` fails
      exactly for the empty string and for values beyond `Int.MAX_VALUE`. */
  lemma ParseDigits(s: string)
    requires AllDigits(s)
    ensures ParseInt(s).Some? <==> s != [] && DecimalValue(s) <= INT_MAX
    ensures ParseInt(s).Some? ==> ParseInt(s).value == DecimalValue(s)
  {
    if s != [] {
      assert IsDigit(s[0]);
    }
  }

  function DigitChar(d: nat): (c: char)
    requires d < 10
    ensures IsDigit(c) && DigitValue(c) == d
  {
    ('0' as int + d) as char
  }

  /** The decimal digits of `n`, without leading zeros. */
  function NatToDecimal(n: nat): (s: string)
    ensures s != [] && AllDigits(s)
    ensures DecimalValue(s) == n
    ensures s[0] == '0' ==> s == "0"
  {
    if n < 10 then [DigitChar(n)]
    else
      var front := NatToDecimal(n / 10);
      var s := front + [DigitChar(n % 10)];
      assert s[..|s| - 1] == front;
      s
  }

  /** `Int.toString()`: a `-` in front of the digits of a negative value. */
  function IntToDecimal(v: int): (s: string)
    ensures s != []
    ensures forall k :: 0 <= k < |s| ==> s[k] != ' '
  {
    if v < 0 then "-" + NatToDecimal(-v) else NatToDecimal(v)
  }

  /** `toIntOrNull` reads back every `Int` that `toString` writes. */
  lemma ParseIntToDecimal(v: Int32)
    ensures ParseInt(IntToDecimal(v)) == Some(v)
  {
    var s := IntToDecimal(v);
    if v < 0 {
      var m: int := v;
      var digits := NatToDecimal(-m);
      assert s[0] == '-' && s[1..] == digits;
    } else {
      assert IsDigit(s[0]);
    }
  }

  /** Printing is one-to-one: different `Int`s print differently. */
  lemma IntToDecimalInjective(v: Int32, w: Int32)
    requires IntToDecimal(v) == IntToDecimal(w)
    ensures v == w
  {
    ParseIntToDecimal(v);
    ParseIntToDecimal(w);
  }

  /** The decimal digits of a natural number parse back to that number exactly
      when it fits in an `Int`; from 2147483648 up, `toIntOrNull` gives null. */
  lemma ParseNatDecimal(n: nat)
    ensures ParseInt(NatToDecimal(n)) == if n <= INT_MAX then Some(n) else None
  {
    var s := NatToDecimal(n);
    assert IsDigit(s[0]);
  }
}
