/**
  The integer token `qi::int_`: an optional sign and a maximal run of one or
  more digits, which fails when the value does not fit a 32-bit int.
  Library assumption: Boost.Spirit's source is not part of this model.
 */
module Numerals {
  import opened Common

  const MIN_INT := -0x8000_0000
  const MAX_INT := 0x7fff_ffff

  predicate FitsInt(n: int) {
    MIN_INT <= n <= MAX_INT
  }

  predicate IsDigit(c: char) {
    '0' <= c <= '9'
  }

  predicate AllDigits(s: string) {
    forall k :: 0 <= k < |s| ==> IsDigit(s[k])
  }

  /** The value of a run of decimal digits. */
  function DigitsValue(s: string): nat
    requires AllDigits(s)
  {
    if s == "" then 0
    else 10 * DigitsValue(s[..|s| - 1]) + (s[|s| - 1] as int - '0' as int)
  }

  function SignLength(s: string): (n: nat)
    ensures n <= |s|
  {
    if s != "" && (s[0] == '+' || s[0] == '-') then 1 else 0
  }

  /** The shape of a token: an optional sign, then digits only, at least one. */
  predicate IsNumeral(s: string) {
    SignLength(s) < |s| && AllDigits(s[SignLength(s)..])
  }

  function NumeralValue(s: string): int
    requires IsNumeral(s)
  {
    var magnitude: int := DigitsValue(s[SignLength(s)..]);
    if s[0] == '-' then -magnitude else magnitude
  }

  /** The language of the token: numerals whose value fits. */
  predicate IsLiteral(s: string) {
    IsNumeral(s) && FitsInt(NumeralValue(s))
  }

  /** The length of the longest prefix made of digits. */
  function DigitRun(s: string): (n: nat)
    ensures n <= |s| && AllDigits(s[..n])
    ensures n < |s| ==> !IsDigit(s[n])
  {
    if s != "" && IsDigit(s[0]) then 1 + DigitRun(s[1..]) else 0
  }

  /** The token parser: how many characters it consumes, if it matches at all. */
  function ParseInt(s: string): (r: Option<nat>)
    ensures r.Some? ==> 0 < r.value <= |s| && IsLiteral(s[..r.value])
    ensures r.Some? && r.value < |s| ==> !IsDigit(s[r.value])
  {
    var sign := SignLength(s);
    var digits := DigitRun(s[sign..]);
    if digits == 0 then None
    else
      var text := s[..sign + digits];
      assert text[sign..] == s[sign..][..digits];
      assert sign + digits < |s| ==> s[sign + digits] == s[sign..][digits];
      if FitsInt(NumeralValue(text)) then Some(sign + digits) else None
  }

  lemma {:induction false} DigitRunStops(s: string, w: string)
    requires AllDigits(s)
    requires w != "" ==> !IsDigit(w[0])
    ensures DigitRun(s + w) == |s|
  {
    if s == "" {
      assert s + w == w;
    } else {
      assert (s + w)[1..] == s[1..] + w;
      DigitRunStops(s[1..], w);
    }
  }

  /** A literal is consumed whole when no digit follows it. */
  lemma ParseIntReadsLiteral(s: string, w: string)
    requires IsLiteral(s)
    requires w != "" ==> !IsDigit(w[0])
    ensures ParseInt(s + w) == Some(|s|)
  {
    var sign := SignLength(s);
    assert (s + w)[sign..] == s[sign..] + w;
    DigitRunStops(s[sign..], w);
    assert (s + w)[..|s|] == s;
  }

  /** The parser takes `n` characters exactly when they are a literal that no digit follows. */
  lemma ParseIntIsMaximal(s: string, n: nat)
    ensures ParseInt(s) == Some(n) <==>
            n <= |s| && IsLiteral(s[..n]) && (n < |s| ==> !IsDigit(s[n]))
  {
    if n <= |s| && IsLiteral(s[..n]) && (n < |s| ==> !IsDigit(s[n])) {
      ParseIntReadsLiteral(s[..n], s[n..]);
      assert s[..n] + s[n..] == s;
    }
  }

  /** The token parser with its result as text and remaining input. */
  datatype Token = NoToken | Token(text: string, rest: string)

  function TakeInt(s: string): (r: Token)
    ensures r.Token? ==> s == r.text + r.rest && IsLiteral(r.text)
  {
    match ParseInt(s)
    case None => NoToken
    case Some(n) => Token(s[..n], s[n..])
  }

  lemma TakeIntReadsLiteral(s: string, w: string)
    requires IsLiteral(s)
    requires w != "" ==> !IsDigit(w[0])
    ensures TakeInt(s + w) == Token(s, w)
  {
    ParseIntReadsLiteral(s, w);
    assert (s + w)[..|s|] == s && (s + w)[|s|..] == w;
  }

  // ---------------------------------------------------------------------
  // Printing

  function Digits(n: nat): (s: string)
    ensures s != "" && AllDigits(s)
  {
    var last := (n % 10 + '0' as int) as char;
    if n < 10 then [last] else Digits(n / 10) + [last]
  }

  lemma {:induction false} DigitsRoundTrip(n: nat)
    ensures DigitsValue(Digits(n)) == n
  {
    var s := Digits(n);
    if n < 10 {
      assert s[..|s| - 1] == "";
      assert DigitsValue("") == 0;
    } else {
      DigitsRoundTrip(n / 10);
      assert s[..|s| - 1] == Digits(n / 10);
    }
  }

  /** Decimal notation, with a minus sign when needed. */
  function Decimal(n: int): (s: string)
    ensures IsNumeral(s)
  {
    if n < 0 then
      var s := "-" + Digits(-n);
      assert s[1..] == Digits(-n);
      s
    else
      assert IsDigit(Digits(n)[0]);
      Digits(n)
  }

  lemma DecimalRoundTrip(n: int)
    ensures NumeralValue(Decimal(n)) == n
    ensures FitsInt(n) ==> IsLiteral(Decimal(n))
  {
    var s := Decimal(n);
    if n < 0 {
      DigitsRoundTrip(-n);
      assert s[SignLength(s)..] == Digits(-n);
    } else {
      DigitsRoundTrip(n);
      assert IsDigit(s[0]);
      assert s[SignLength(s)..] == s == Digits(n);
    }
  }

  /** Which notations are taken, with the bounds of a 32-bit int and the optional plus sign. */
  lemma LiteralBounds(n: nat)
    ensures IsLiteral(Digits(n)) <==> n <= 2147483647
    ensures IsLiteral("+" + Digits(n)) <==> n <= 2147483647
    ensures IsLiteral("-" + Digits(n)) <==> n <= 2147483648
    ensures NumeralValue(Digits(n)) == NumeralValue("+" + Digits(n)) == n
    ensures NumeralValue("-" + Digits(n)) + n == 0
  {
    DigitsRoundTrip(n);
    var s := Digits(n);
    assert IsDigit(s[0]) && s[SignLength(s)..] == s;
    assert ("+" + s)[1..] == s && ("-" + s)[1..] == s;
  }

  /** The last digit is the unit, and the others stand for tens. */
  lemma DigitsArePositional(n: nat, d: nat)
    requires d < 10
    ensures Digits(10 * n + d) == (if n == 0 then "" else Digits(n)) + ["0123456789"[d]]
  {
    assert (10 * n + d) / 10 == n && (10 * n + d) % 10 == d;
    assert (d + '0' as int) as char == "0123456789"[d];
  }
}
