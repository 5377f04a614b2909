/** Reading and writing decimals as text, and the canonical amount text that ledgers compare. */
module DecimalText {
  import opened Common
  import opened Decimals

  // ---------- characters ----------

  predicate IsDigit(c: char) {
    '0' <= c <= '9'
  }

  function DigitChar(d: Digit): (c: char)
    ensures IsDigit(c) && CharDigit(c) == d
  {
    ('0' as int + d) as char
  }

  function CharDigit(c: char): Digit {
    if IsDigit(c) then c as int - '0' as int else 0
  }

  function TextOf(ds: seq<Digit>): string {
    seq(|ds|, i requires 0 <= i < |ds| => DigitChar(ds[i]))
  }

  function DigitsIn(s: string): seq<Digit> {
    seq(|s|, i requires 0 <= i < |s| => CharDigit(s[i]))
  }

  /** How many digits the text starts with. */
  function DigitRun(s: string): (n: nat)
    ensures n <= |s|
  {
    if s == "" || !IsDigit(s[0]) then 0 else 1 + DigitRun(s[1..])
  }

  lemma {:induction false} DigitRunStops(s: string, n: nat)
    requires n <= |s| && forall i :: 0 <= i < n ==> IsDigit(s[i])
    requires n < |s| ==> !IsDigit(s[n])
    ensures DigitRun(s) == n
  {
    if n > 0 {
      DigitRunStops(s[1..], n - 1);
    }
  }

  // ---------- reading ----------

  function ParseExponent(s: string): Option<int> {
    if s == "" then Some(0)
    else if s[0] != 'e' && s[0] != 'E' then None
    else
      var signed := |s| > 1 && (s[1] == '-' || s[1] == '+');
      var digits := if signed then s[2..] else s[1..];
      if digits == "" || DigitRun(digits) != |digits| then None
      else
        var n := NatOf(DigitsIn(digits));
        Some(if signed && s[1] == '-' then 0 - n else n)
  }

  /** The fraction digits after a leading point. */
  function FractionPart(tail: string): string {
    if tail != "" && tail[0] == '.' then tail[1..][..DigitRun(tail[1..])] else ""
  }

  /** What follows the fraction. */
  function ExponentPart(tail: string): string {
    if tail != "" && tail[0] == '.' then tail[1..][DigitRun(tail[1..])..] else tail
  }

  function ParsePieces(negative: bool, whole: string, fraction: string, exponentText: string): Option<Dec> {
    if |whole| + |fraction| == 0 then None
    else
      match ParseExponent(exponentText)
      case None => None
      case Some(e) => Some(Dec(negative, NatOf(DigitsIn(whole + fraction)), e - |fraction|))
  }

  function ParseUnsigned(negative: bool, body: string): Option<Dec> {
    var i := DigitRun(body);
    ParsePieces(negative, body[..i], FractionPart(body[i..]), ExponentPart(body[i..]))
  }

  /** Reads a finite decimal numeral: sign, digits with an optional point, optional exponent. */
  function ParseDecimal(text: string): Option<Dec> {
    if text != "" && (text[0] == '-' || text[0] == '+') then ParseUnsigned(text[0] == '-', text[1..])
    else ParseUnsigned(false, text)
  }

  /** What follows the whole digits of a numeral. */
  function NumeralTail(fraction: seq<Digit>, exponentText: string): string {
    if fraction == [] then exponentText else "." + (TextOf(fraction) + exponentText)
  }

  /** A numeral assembled from its parts. */
  function Numeral(negative: bool, whole: seq<Digit>, fraction: seq<Digit>, exponentText: string): string {
    var body := TextOf(whole) + NumeralTail(fraction, exponentText);
    if negative then "-" + body else body
  }

  lemma RunOf(ds: seq<Digit>, rest: string)
    requires rest == "" || !IsDigit(rest[0])
    ensures DigitRun(TextOf(ds) + rest) == |ds|
  {
    var s := TextOf(ds) + rest;
    assert forall i :: 0 <= i < |ds| ==> s[i] == TextOf(ds)[i];
    assert rest != "" ==> s[|ds|] == rest[0];
    DigitRunStops(s, |ds|);
  }

  lemma DigitsOfText(a: seq<Digit>, b: seq<Digit>)
    ensures DigitsIn(TextOf(a) + TextOf(b)) == a + b
  {
  }

  lemma TailParts(fraction: seq<Digit>, exponentText: string)
    requires exponentText == "" || exponentText[0] == 'E'
    ensures var tail := NumeralTail(fraction, exponentText);
            && FractionPart(tail) == TextOf(fraction)
            && ExponentPart(tail) == exponentText
            && (tail == "" || !IsDigit(tail[0]))
  {
    if fraction != [] {
      var tail := NumeralTail(fraction, exponentText);
      assert tail[1..] == TextOf(fraction) + exponentText;
      RunOf(fraction, exponentText);
    }
  }

  lemma SplitWhole(whole: seq<Digit>, tail: string)
    requires tail == "" || !IsDigit(tail[0])
    ensures var body := TextOf(whole) + tail;
            DigitRun(body) == |whole| && body[..|whole|] == TextOf(whole) && body[|whole|..] == tail
  {
    RunOf(whole, tail);
  }

  /** The digits and the exponent that make up a decimal. */
  ghost predicate SpellsOut(d: Dec, whole: seq<Digit>, fraction: seq<Digit>, exponentText: string, e: int) {
    && whole != []
    && NatOf(whole + fraction) == d.coefficient
    && e - |fraction| == d.exponent
    && (exponentText == "" || exponentText[0] == 'E')
    && ParseExponent(exponentText) == Some(e)
  }

  lemma PiecesOf(d: Dec, whole: seq<Digit>, fraction: seq<Digit>, exponentText: string, e: int)
    requires SpellsOut(d, whole, fraction, exponentText, e)
    ensures ParsePieces(d.negative, TextOf(whole), TextOf(fraction), exponentText) == Some(d)
  {
    DigitsOfText(whole, fraction);
  }

  lemma ParseSigned(negative: bool, body: string)
    requires body != "" && IsDigit(body[0])
    ensures ParseDecimal(if negative then "-" + body else body) == ParseUnsigned(negative, body)
  {
    assert ("-" + body)[0] == '-' && ("-" + body)[1..] == body;
  }

  lemma ParseBody(d: Dec, whole: seq<Digit>, fraction: seq<Digit>, exponentText: string, e: int)
    requires SpellsOut(d, whole, fraction, exponentText, e)
    ensures ParseUnsigned(d.negative, TextOf(whole) + NumeralTail(fraction, exponentText)) == Some(d)
  {
    TailParts(fraction, exponentText);
    SplitWhole(whole, NumeralTail(fraction, exponentText));
    PiecesOf(d, whole, fraction, exponentText, e);
  }

  /** Reading an assembled numeral gives back the decimal its parts spell out. */
  lemma ParseNumeral(d: Dec, whole: seq<Digit>, fraction: seq<Digit>, exponentText: string, e: int)
    requires SpellsOut(d, whole, fraction, exponentText, e)
    ensures ParseDecimal(Numeral(d.negative, whole, fraction, exponentText)) == Some(d)
  {
    var body := TextOf(whole) + NumeralTail(fraction, exponentText);
    assert body[0] == TextOf(whole)[0];
    ParseBody(d, whole, fraction, exponentText, e);
    ParseSigned(d.negative, body);
  }

  // ---------- fixed-point text ----------

  function Zeros(k: nat): seq<Digit> {
    seq(k, _ => 0)
  }

  /** Plain notation without an exponent: 100, 0.25, -3.5. */
  function FormatFixed(d: Dec): string {
    var ds := DigitsOf(d.coefficient);
    if d.exponent >= 0 then Numeral(d.negative, ds + Zeros(d.exponent), [], "")
    else
      var k := -d.exponent;
      if k < |ds| then Numeral(d.negative, ds[..|ds| - k], ds[|ds| - k..], "")
      else Numeral(d.negative, [0], Zeros(k - |ds|) + ds, "")
  }

  /** Leading zeros before the digits of a number change nothing. */
  lemma PaddedDigits(c: nat, k: nat)
    ensures NatOf([0] + (Zeros(k) + DigitsOf(c))) == c
  {
    DigitsRoundTrip(c);
    assert [0] + (Zeros(k) + DigitsOf(c)) == Zeros(k + 1) + DigitsOf(c);
    NatOfAllZeros(k + 1, DigitsOf(c));
  }

  lemma SplitDigits(c: nat, place: nat)
    requires place <= |DigitsOf(c)|
    ensures NatOf(DigitsOf(c)[..place] + DigitsOf(c)[place..]) == c
  {
    DigitsRoundTrip(c);
    assert DigitsOf(c)[..place] + DigitsOf(c)[place..] == DigitsOf(c);
  }

  lemma FixedWhole(d: Dec)
    requires d.exponent >= 0
    ensures ParseDecimal(FormatFixed(d)) == Some(Dec(d.negative, d.coefficient * Pow10(d.exponent), 0))
  {
    var whole := DigitsOf(d.coefficient) + Zeros(d.exponent);
    assert whole + [] == whole;
    DigitsRoundTrip(d.coefficient);
    NatOfZeros(DigitsOf(d.coefficient), d.exponent);
    ParseNumeral(Dec(d.negative, d.coefficient * Pow10(d.exponent), 0), whole, [], "", 0);
  }

  lemma FixedFraction(d: Dec)
    requires d.exponent < 0
    ensures ParseDecimal(FormatFixed(d)) == Some(d)
  {
    var n := |DigitsOf(d.coefficient)|;
    var k := -d.exponent;
    if k < n {
      var whole, fraction := DigitsOf(d.coefficient)[..n - k], DigitsOf(d.coefficient)[n - k..];
      SplitDigits(d.coefficient, n - k);
      ParseNumeral(d, whole, fraction, "", 0);
      assert FormatFixed(d) == Numeral(d.negative, whole, fraction, "");
    } else {
      var fraction := Zeros(k - n) + DigitsOf(d.coefficient);
      PaddedDigits(d.coefficient, k - n);
      ParseNumeral(d, [0], fraction, "", 0);
      assert FormatFixed(d) == Numeral(d.negative, [0], fraction, "");
    }
  }

  /** Fixed-point text reads back as the same number. */
  lemma FixedRoundTrip(d: Dec)
    ensures ParseDecimal(FormatFixed(d)).Some? && Value(ParseDecimal(FormatFixed(d)).value) == Value(d)
  {
    if d.exponent >= 0 {
      FixedWhole(d);
      Rescale(d.negative, d.coefficient, 0, d.exponent);
    } else {
      FixedFraction(d);
    }
  }

  // ---------- scientific text ----------

  function ExponentText(k: int): string {
    if k >= 0 then "E+" + TextOf(DigitsOf(k)) else "E-" + TextOf(DigitsOf(-k))
  }

  lemma ExponentRoundTrip(k: int)
    ensures ParseExponent(ExponentText(k)) == Some(k)
  {
    var n := if k >= 0 then k else -k;
    var s := ExponentText(k);
    assert s[2..] == TextOf(DigitsOf(n));
    SplitWhole(DigitsOf(n), "");
    assert TextOf(DigitsOf(n)) + "" == TextOf(DigitsOf(n));
    assert DigitsIn(TextOf(DigitsOf(n))) == DigitsOf(n);
    DigitsRoundTrip(n);
  }

  /** Where the point goes: after the leading digits, or after the first digit of scientific text. */
  function PointPlace(d: Dec): int {
    var left := d.exponent + |DigitsOf(d.coefficient)|;
    if d.exponent <= 0 && left > -6 then left else 1
  }

  function PrintedExponent(d: Dec): string {
    var left := d.exponent + |DigitsOf(d.coefficient)|;
    if left == PointPlace(d) then "" else ExponentText(left - PointPlace(d))
  }

  function PrintedWhole(d: Dec): seq<Digit> {
    var ds, place := DigitsOf(d.coefficient), PointPlace(d);
    if place <= 0 then [0] else if place >= |ds| then ds + Zeros(place - |ds|) else ds[..place]
  }

  function PrintedFraction(d: Dec): seq<Digit> {
    var ds, place := DigitsOf(d.coefficient), PointPlace(d);
    if place <= 0 then Zeros(-place) + ds else if place >= |ds| then [] else ds[place..]
  }

  /** The text of a decimal as the language prints it, which keeps coefficient and exponent apart. */
  function ToText(d: Dec): string {
    Numeral(d.negative, PrintedWhole(d), PrintedFraction(d), PrintedExponent(d))
  }

  lemma PrintedDigits(d: Dec)
    ensures NatOf(PrintedWhole(d) + PrintedFraction(d)) == d.coefficient
    ensures d.exponent + |DigitsOf(d.coefficient)| - PointPlace(d) - |PrintedFraction(d)| == d.exponent
  {
    var ds, place := DigitsOf(d.coefficient), PointPlace(d);
    if place <= 0 {
      PaddedDigits(d.coefficient, -place);
    } else if place >= |ds| {
      SplitDigits(d.coefficient, |ds|);
      assert PrintedWhole(d) + PrintedFraction(d) == ds[..|ds|] + ds[|ds|..];
    } else {
      SplitDigits(d.coefficient, place);
    }
  }

  /** Printed decimals read back exactly: same sign, same coefficient, same exponent. */
  lemma TextRoundTrip(d: Dec)
    ensures ParseDecimal(ToText(d)) == Some(d)
  {
    var e := d.exponent + |DigitsOf(d.coefficient)| - PointPlace(d);
    ExponentRoundTrip(e);
    PrintedDigits(d);
    ParseNumeral(d, PrintedWhole(d), PrintedFraction(d), PrintedExponent(d), e);
  }

  // ---------- canonical amounts ----------

  /** Rounds to the context and strips trailing zeros. */
  function Normalize(d: Dec): Dec {
    var r := Round(d);
    if r.coefficient == 0 then Dec(r.negative, 0, 0)
    else
      var s := Strip(r.coefficient, r.exponent);
      Dec(r.negative, s.0, s.1)
  }

  function FormatAmount(d: Dec): string {
    if IsZero(d) then "0" else FormatFixed(Normalize(d))
  }

  /** Accepts exactly the texts that formatting their own number gives back. */
  function Amount(text: string): Result<Dec> {
    if text == "" then Failure("invalid canonical amount")
    else
      match ParseDecimal(text)
      case None => Failure("invalid canonical amount")
      case Some(number) => if FormatAmount(number) == text then Success(number) else Failure("invalid canonical amount")
  }

  lemma RoundNonzero(d: Dec)
    requires d.coefficient > 0
    ensures Round(d).coefficient > 0
  {
    var c := d.coefficient;
    var n := |DigitsOf(c)|;
    if n > PRECISION {
      var k := n - PRECISION;
      LongQuotient(c, k);
      Pow10Monotone(k, n - 1);
      QuotientPositive(c, Pow10(k));
      HalfEvenNear(c, k);
    }
  }

  lemma NormalizeValue(d: Dec)
    requires d.coefficient > 0
    ensures Normalize(d).coefficient % 10 != 0 && Normalize(d).negative == d.negative
    ensures Value(Normalize(d)) == Value(Round(d)) && Fits(Normalize(d))
  {
    RoundNonzero(d);
    RoundExactIffFits(d);
    var r := Round(d);
    StripValue(r.negative, r.coefficient, r.exponent);
    StripAtMost(r.coefficient, r.exponent);
    var n := Normalize(d);
    StripAtMost(n.coefficient, n.exponent);
  }

  /** A number that fits normalizes to the one stripped decimal with its value. */
  lemma NormalizeUnique(a: Dec, b: Dec)
    requires a.coefficient > 0 && b.coefficient > 0 && Value(a) == Value(b) && Fits(a)
    ensures Normalize(a) == Normalize(b)
  {
    FitsByValue(a, b);
    RoundExactIffFits(a);
    RoundExactIffFits(b);
    NormalizeValue(a);
    NormalizeValue(b);
    StrippedUnique(Normalize(a), Normalize(b));
  }

  lemma ZeroText()
    ensures ParseDecimal("0") == Some(Dec(false, 0, 0))
    ensures Amount("0") == Success(Dec(false, 0, 0))
  {
    assert [0] + [] == [0] && NatOfFirst([0], 1) == NatOfFirst([0], 0) * 10 + 0;
    ParseNumeral(Dec(false, 0, 0), [0], [], "", 0);
    assert Numeral(false, [0], [], "") == "0" by {
      assert TextOf([0])[0] == '0';
      assert TextOf([0]) == "0";
    }
  }

  /** Formatting then reading always succeeds, and returns the number exactly when it fits in 28 digits. */
  lemma FormatThenRead(d: Dec)
    ensures Amount(FormatAmount(d)).Success?
    ensures Value(Amount(FormatAmount(d)).value) == Value(Round(d))
    ensures Value(Amount(FormatAmount(d)).value) == Value(d) <==> Fits(d)
  {
    RoundExactIffFits(d);
    if IsZero(d) {
      ZeroText();
      ZeroValue(d);
      ZeroValue(Dec(false, 0, 0));
    } else {
      NormalizeValue(d);
      NormalFormReads(Normalize(d));
    }
  }

  /** The fixed-point text of a normal decimal is accepted, and reads as a number of its value. */
  lemma NormalFormReads(n: Dec)
    requires n.coefficient % 10 != 0 && Fits(n)
    ensures Amount(FormatFixed(n)).Success? && Value(Amount(FormatFixed(n)).value) == Value(n)
  {
    FixedRoundTrip(n);
    var p := ParseDecimal(FormatFixed(n)).value;
    ZeroValue(p);
    ZeroValue(n);
    AlreadyNormal(n);
    NormalizeUnique(n, p);
    EmptyIsNoDecimal();
  }

  lemma EmptyIsNoDecimal()
    ensures ParseDecimal("").None?
  {
  }

  lemma AlreadyNormal(n: Dec)
    requires n.coefficient % 10 != 0 && Fits(n)
    ensures Normalize(n) == n
  {
    RoundExactIffFits(n);
    NormalizeValue(n);
    StrippedUnique(Normalize(n), n);
  }

  /** Reading then formatting returns the text, and every accepted amount fits in 28 digits. */
  lemma ReadThenFormat(text: string)
    requires Amount(text).Success?
    ensures FormatAmount(Amount(text).value) == text && Fits(Amount(text).value)
  {
    FormatThenRead(Amount(text).value);
  }

  /** Equal accepted texts are equal numbers, and conversely. */
  lemma TextEqualityIsNumericEquality(a: string, b: string)
    requires Amount(a).Success? && Amount(b).Success?
    ensures a == b <==> Value(Amount(a).value) == Value(Amount(b).value)
  {
    ReadThenFormat(a);
    ReadThenFormat(b);
    var x, y := Amount(a).value, Amount(b).value;
    ZeroValue(x);
    ZeroValue(y);
    if Value(x) == Value(y) && !IsZero(x) {
      NormalizeUnique(x, y);
    }
  }
}
