/**
 * The text conversions the typed getters and setters use: Kotlin's
 * `Int.toString`, `Long.toString`, `Boolean.toString` on the way in and
 * `String.toIntOrNull`, `toLongOrNull`, `toBooleanStrictOrNull` on the way out.
 */
module Text {
  import opened Outcomes

  const INT_MIN: int := -0x8000_0000
  const INT_MAX: int := 0x7fff_ffff
  const LONG_MIN: int := -0x8000_0000_0000_0000
  const LONG_MAX: int := 0x7fff_ffff_ffff_ffff

  /** Kotlin `Int`. */
  type Int32 = x: int | INT_MIN <= x <= INT_MAX
  /** Kotlin `Long`. */
  type Int64 = x: int | LONG_MIN <= x <= LONG_MAX

  predicate IsDigit(c: char) { '0' <= c <= '9' }

  predicate AllDigits(s: string) { forall i :: 0 <= i < |s| ==> IsDigit(s[i]) }

  function DigitChar(d: nat): (c: char)
    requires d < 10
    ensures IsDigit(c)
  {
    ('0' as int + d) as char
  }

  function DigitValue(c: char): (d: nat)
    requires IsDigit(c)
    ensures d < 10 && DigitChar(d) == c
  {
    c as int - '0' as int
  }

  /** The decimal digits of `n`, most significant first, without leading zeros. */
  function NatText(n: nat): (s: string)
    ensures |s| > 0 && AllDigits(s)
    ensures |s| > 1 ==> s[0] != '0'
    decreases n
  {
    if n < 10 then [DigitChar(n)] else NatText(n / 10) + [DigitChar(n % 10)]
  }

  /** `toString` of an `Int` or a `Long`: a minus sign for negatives, then the digits. */
  function IntText(n: int): (s: string)
    ensures IsNumeral(s)
    ensures s[0] == '-' <==> n < 0
  {
    if n < 0 then
      var digits := NatText(-n);
      assert ("-" + digits)[1..] == digits;
      "-" + digits
    else NatText(n)
  }

  /** The grammar the parser accepts: an optional sign followed by one or more digits. */
  predicate IsNumeral(s: string)
  {
    && |s| > 0
    && var body := if s[0] == '+' || s[0] == '-' then s[1..] else s;
       |body| > 0 && AllDigits(body)
  }

  /** The number a string of decimal digits denotes. */
  function DigitsValue(s: string): nat
    requires AllDigits(s)
    decreases |s|
  {
    if s == [] then 0 else DigitsValue(s[..|s| - 1]) * 10 + DigitValue(s[|s| - 1])
  }

  /**
   * The integer `toIntOrNull`/`toLongOrNull` read from `s` before the range
   * check: a first character below '0' can only be a sign and must be
   * followed by at least one digit; everything else must be a digit.
   */
  function ParseInteger(s: string): (r: Option<int>)
    ensures r.Some? <==> IsNumeral(s)
    ensures r.Some? && s[0] == '-' ==> r.value <= 0
    ensures r.Some? && s[0] != '-' ==> r.value >= 0
  {
    if |s| == 0 then None
    else if s[0] < '0' then
      if |s| == 1 then None
      else if s[0] == '-' then (if AllDigits(s[1..]) then Some(-(DigitsValue(s[1..]) as int)) else None)
      else if s[0] == '+' then (if AllDigits(s[1..]) then Some(DigitsValue(s[1..])) else None)
      else assert !IsDigit(s[0]); None
    else if AllDigits(s) then Some(DigitsValue(s))
    else None
  }

  /** Kotlin's `String.toIntOrNull()`. */
  function ToIntOrNull(s: string): (r: Option<Int32>)
    ensures r.Some? <==> IsNumeral(s) && INT_MIN <= ParseInteger(s).value <= INT_MAX
    ensures r.Some? ==> r.value == ParseInteger(s).value
  {
    match ParseInteger(s)
    case Some(v) => if INT_MIN <= v <= INT_MAX then Some(v) else None
    case None => None
  }

  /** Kotlin's `String.toLongOrNull()`. */
  function ToLongOrNull(s: string): (r: Option<Int64>)
    ensures r.Some? <==> IsNumeral(s) && LONG_MIN <= ParseInteger(s).value <= LONG_MAX
    ensures r.Some? ==> r.value == ParseInteger(s).value
  {
    match ParseInteger(s)
    case Some(v) => if LONG_MIN <= v <= LONG_MAX then Some(v) else None
    case None => None
  }

  /** `Boolean.toString`. */
  function BooleanText(b: bool): (s: string)
    ensures ToBooleanStrictOrNull(s) == Some(b)
  {
    if b then "true" else "false"
  }

  /** Kotlin's `String.toBooleanStrictOrNull()`: only the exact, lower-case words. */
  function ToBooleanStrictOrNull(s: string): (r: Option<bool>)
    ensures r.None? <==> s != "true" && s != "false"
    ensures r.Some? ==> s == if r.value then "true" else "false"
  {
    if s == "true" then Some(true) else if s == "false" then Some(false) else None
  }

  lemma {:induction false} NatTextValue(n: nat)
    ensures DigitsValue(NatText(n)) == n
    decreases n
  {
    if n >= 10 {
      var s := NatText(n);
      NatTextValue(n / 10);
      assert s[..|s| - 1] == NatText(n / 10);
    }
  }

  lemma IntTextParses(n: int)
    ensures ParseInteger(IntText(n)) == Some(n)
  {
    var s := IntText(n);
    if n < 0 {
      assert s[1..] == NatText(-n);
      NatTextValue(-n);
    } else {
      NatTextValue(n);
    }
  }

  /** `putInt` writes text that `getInt` reads back for every `Int`, including both bounds. */
  lemma IntRoundTrip(v: Int32)
    ensures ToIntOrNull(IntText(v)) == Some(v)
  {
    IntTextParses(v);
  }

  /** `putLong` writes text that `getLong` reads back for every `Long`, including both bounds. */
  lemma LongRoundTrip(v: Int64)
    ensures ToLongOrNull(IntText(v)) == Some(v)
  {
    IntTextParses(v);
  }
}
