/**
 JSON number normalization (model-invoker/tool_call_observation.go).

 Numbers are handled as text, as the source does: the text is cut at its exponent
 marker and decimal point, zeros are trimmed from both ends of the digits, and the
 exponent is an unbounded integer.  `Value` gives the rational a number denotes, and
 the theorems say that the normal form is a complete invariant of that rational.
 */
module DecimalNumber {
  import opened Wrappers

  datatype NumberError = InvalidNumber

  // ---------------------------------------------------------------- digits

  predicate IsDigit(c: char) { '0' <= c <= '9' }

  predicate AllDigits(s: string) { forall i :: 0 <= i < |s| ==> IsDigit(s[i]) }

  /** The number written by the first k digits. */
  function PrefixValue(s: string, k: nat): nat
    requires AllDigits(s) && k <= |s|
  {
    if k == 0 then 0 else PrefixValue(s, k - 1) * 10 + (s[k - 1] - '0') as nat
  }

  function DigitsValue(s: string): nat
    requires AllDigits(s)
  {
    PrefixValue(s, |s|)
  }

  lemma {:induction false} SamePrefix(s: string, t: string, k: nat)
    requires AllDigits(s) && AllDigits(t) && k <= |s| && k <= |t|
    requires forall i :: 0 <= i < k ==> s[i] == t[i]
    ensures PrefixValue(s, k) == PrefixValue(t, k)
  {
    if k > 0 {
      SamePrefix(s, t, k - 1);
    }
  }

  lemma DigitsAppend(s: string, c: char)
    requires AllDigits(s) && IsDigit(c)
    ensures AllDigits(s + [c]) && DigitsValue(s + [c]) == DigitsValue(s) * 10 + (c - '0') as nat
  {
    SamePrefix(s + [c], s, |s|);
  }

  function DigitChar(d: nat): char
    requires d < 10
  {
    '0' + d as char
  }

  /** The decimal spelling of a natural number, most significant digit first. */
  function Decimal(n: nat): string {
    if n < 10 then [DigitChar(n)] else Decimal(n / 10) + [DigitChar(n % 10)]
  }

  lemma {:induction false} DecimalReads(n: nat)
    ensures var s := Decimal(n);
            s != "" && AllDigits(s) && DigitsValue(s) == n && (s[0] == '0' ==> n == 0)
  {
    if n < 10 {
      assert PrefixValue([DigitChar(n)], 0) == 0;
    } else {
      DecimalReads(n / 10);
      DigitsAppend(Decimal(n / 10), DigitChar(n % 10));
    }
  }

  function SignedDecimal(n: int): string {
    if n < 0 then "-" + Decimal(-n) else Decimal(n)
  }

  /** Signed base-ten reading: one optional sign, then at least one digit. */
  function ParseSigned(text: string): Option<int> {
    var negative := text != "" && text[0] == '-';
    var digits := if text != "" && (text[0] == '-' || text[0] == '+') then text[1..] else text;
    if digits == "" || !AllDigits(digits) then None
    else Some(Signed(negative, DigitsValue(digits)))
  }

  // ------------------------------------------------------- text operations

  /** Everything before the first of the stop characters; all of s if there is none. */
  function Before(s: string, stops: set<char>): string { s[..StopAt(s, stops, 0)] }

  function StopAt(s: string, stops: set<char>, k: nat): (r: nat)
    requires k <= |s|
    ensures k <= r <= |s|
    ensures forall i :: k <= i < r ==> s[i] !in stops
    ensures r < |s| ==> s[r] in stops
    decreases |s| - k
  {
    if k == |s| || s[k] in stops then k else StopAt(s, stops, k + 1)
  }

  function TrimLeftZeros(s: string): string { s[ZerosFrom(s, 0)..] }

  function ZerosFrom(s: string, k: nat): (r: nat)
    requires k <= |s|
    ensures k <= r <= |s|
    ensures forall i :: k <= i < r ==> s[i] == '0'
    ensures r < |s| ==> s[r] != '0'
    decreases |s| - k
  {
    if k < |s| && s[k] == '0' then ZerosFrom(s, k + 1) else k
  }

  function TrimRightZeros(s: string): string { s[..ZerosTo(s, |s|)] }

  function ZerosTo(s: string, k: nat): (r: nat)
    requires k <= |s|
    ensures r <= k
    ensures forall i :: r <= i < k ==> s[i] == '0'
    ensures r > 0 ==> s[r - 1] != '0'
  {
    if k > 0 && s[k - 1] == '0' then ZerosTo(s, k - 1) else k
  }

  const MARKERS := {'e', 'E'}
  const POINT := {'.'}

  /** The digits without the zeros at either end, followed by the exponent those zeros leave. */
  function SpellTrimmed(negative: bool, joined: string, exponent: int): string {
    var digits := TrimLeftZeros(joined);
    if digits == "" then "0" else
    var significant := TrimRightZeros(digits);
    var scale := exponent + (|digits| - |significant|);
    var prefix := if negative then "-" else "";
    if scale == 0 then prefix + significant else prefix + significant + "e" + SignedDecimal(scale)
  }

  /** What follows the character after a prefix, or a default if the prefix is everything. */
  function After(s: string, prefix: string, default: string): string {
    if |prefix| < |s| then s[|prefix| + 1..] else default
  }

  function Unsigned(raw: string): string { if raw != "" && raw[0] == '-' then raw[1..] else raw }

  /** A number's sign, all its digits, and the power of ten of the last one. */
  datatype Parts = Parts(negative: bool, joined: string, scale: int)

  function Cut(raw: string): Option<Parts> {
    var mantissa := Before(Unsigned(raw), MARKERS);
    match ParseSigned(After(Unsigned(raw), mantissa, "0"))
    case None => None
    case Some(exponent) =>
      var whole := Before(mantissa, POINT);
      var fraction := After(mantissa, whole, "");
      Some(Parts(raw != "" && raw[0] == '-', whole + fraction, exponent - |fraction|))
  }

  /** The source's normalizer, branch for branch. */
  function Normalize(raw: string): Result<string, NumberError> {
    match Cut(raw)
    case None => Failure(InvalidNumber)
    case Some(parts) => Success(SpellTrimmed(parts.negative, parts.joined, parts.scale))
  }

  // ------------------------------------- the grammar of RFC 8259 section 6

  datatype Sign = NoSign | Plus | Minus
  {
    function Text(): string { match this case NoSign => "" case Plus => "+" case Minus => "-" }
  }

  datatype Exponent = Exponent(marker: char, sign: Sign, digits: string)
  {
    predicate Valid() { marker in MARKERS && digits != "" && AllDigits(digits) }

    function Text(): string { [marker] + (sign.Text() + digits) }

    function Value(): int
      requires Valid()
    {
      Signed(sign.Minus?, DigitsValue(digits))
    }
  }

  /** An empty fraction means the number has no decimal point. */
  datatype Number = Number(negative: bool, whole: string, fraction: string, exponent: Option<Exponent>)
  {
    predicate Valid() {
      && whole != "" && AllDigits(whole) && (whole[0] == '0' ==> whole == "0")
      && AllDigits(fraction)
      && (exponent.Some? ==> exponent.value.Valid())
    }

    function MantissaText(): string { if fraction == "" then whole else whole + ("." + fraction) }

    function ExponentText(): string { if exponent.None? then "" else exponent.value.Text() }

    function Text(): string { (if negative then "-" else "") + (MantissaText() + ExponentText()) }

    function ExponentValue(): int
      requires Valid()
    {
      if exponent.None? then 0 else exponent.value.Value()
    }

    /** The integer written by the sign and the digits alone, decimal point ignored. */
    function Coefficient(): int
      requires Valid()
    {
      Signed(negative, DigitsValue(whole + fraction))
    }

    /** The rational number denoted: an integer times a power of ten. */
    function Value(): real
      requires Valid()
    {
      Scale10(Coefficient() as real, ExponentValue() - |fraction|)
    }
  }

  function Signed(negative: bool, n: nat): int { if negative then -(n as int) else n }

  /** x times ten to the power e. */
  function Scale10(x: real, e: int): real
    decreases if e < 0 then -e else e
  {
    if e == 0 then x else if e > 0 then 10.0 * Scale10(x, e - 1) else Scale10(x, e + 1) / 10.0
  }

  /** m followed by k zeros. */
  function Shifted(m: int, k: nat): int { if k == 0 then m else 10 * Shifted(m, k - 1) }

  // ------------------------------------------------------ powers of ten

  lemma {:induction false} ScaleStep(x: real, e: int)
    ensures Scale10(x, e + 1) == 10.0 * Scale10(x, e) == Scale10(10.0 * x, e)
    decreases if e < 0 then -e else e
  {
    if e > 0 {
      ScaleStep(x, e - 1);
    } else if e < 0 {
      ScaleStep(x, e + 1);
    }
  }

  /** Moving k powers of ten between the exponent and the coefficient. */
  lemma {:induction false} ShiftScale(m: int, e: int, k: nat)
    ensures Scale10(m as real, e + k) == Scale10(Shifted(m, k) as real, e)
    decreases k
  {
    if k > 0 {
      ShiftScale(m, e + 1, k - 1);
      ScaleStep(Shifted(m, k - 1) as real, e);
    }
  }

  lemma {:induction false} ScaleInjective(x: real, y: real, e: int)
    requires Scale10(x, e) == Scale10(y, e)
    ensures x == y
    decreases if e < 0 then -e else e
  {
    if e > 0 {
      ScaleInjective(x, y, e - 1);
    } else if e < 0 {
      ScaleInjective(x, y, e + 1);
    }
  }

  lemma {:induction false} ScaleZero(e: int)
    ensures Scale10(0.0, e) == 0.0
    decreases if e < 0 then -e else e
  {
    if e > 0 {
      ScaleZero(e - 1);
    } else if e < 0 {
      ScaleZero(e + 1);
    }
  }

  lemma {:induction false} ShiftedSign(negative: bool, d: nat, k: nat)
    ensures Shifted(d, k) >= 0 && Signed(negative, Shifted(d, k)) == Shifted(Signed(negative, d), k)
  {
    if k > 0 {
      ShiftedSign(negative, d, k - 1);
    }
  }

  // --------------------------------------------------- trimming and values

  lemma {:induction false} LeadingZeros(zeros: string, s: string, k: nat)
    requires forall i :: 0 <= i < |zeros| ==> zeros[i] == '0'
    requires AllDigits(s) && k <= |zeros| + |s|
    ensures AllDigits(zeros + s)
    ensures PrefixValue(zeros + s, k) == if k <= |zeros| then 0 else PrefixValue(s, k - |zeros|)
  {
    if k > 0 {
      LeadingZeros(zeros, s, k - 1);
    }
  }

  lemma {:induction false} TrailingZeros(s: string, zeros: string)
    requires forall i :: 0 <= i < |zeros| ==> zeros[i] == '0'
    requires AllDigits(s)
    ensures AllDigits(s + zeros) && DigitsValue(s + zeros) == Shifted(DigitsValue(s), |zeros|)
    decreases |zeros|
  {
    if zeros == "" {
      assert s + zeros == s;
    } else {
      var fewer := zeros[..|zeros| - 1];
      TrailingZeros(s, fewer);
      DigitsAppend(s + fewer, '0');
      assert s + zeros == (s + fewer) + ['0'];
    }
  }

  lemma {:induction false} PositiveDigits(s: string, k: nat)
    requires AllDigits(s) && 0 < k <= |s| && s[0] != '0'
    ensures PrefixValue(s, k) > 0
  {
    if k > 1 {
      PositiveDigits(s, k - 1);
    }
  }

  /** Without a leading zero a digit string is determined by its value. */
  lemma {:induction false} DigitsInjective(a: string, b: string, i: nat, j: nat)
    requires AllDigits(a) && AllDigits(b) && i <= |a| && j <= |b|
    requires a != "" ==> a[0] != '0'
    requires b != "" ==> b[0] != '0'
    requires PrefixValue(a, i) == PrefixValue(b, j)
    ensures a[..i] == b[..j]
  {
    if i == 0 || j == 0 {
      if i > 0 { PositiveDigits(a, i); }
      if j > 0 { PositiveDigits(b, j); }
    } else {
      DigitsInjective(a, b, i - 1, j - 1);
      assert a[..i] == a[..i - 1] + [a[i - 1]] && b[..j] == b[..j - 1] + [b[j - 1]];
    }
  }

  lemma TrimmedLeft(joined: string)
    requires AllDigits(joined)
    ensures AllDigits(TrimLeftZeros(joined)) && DigitsValue(TrimLeftZeros(joined)) == DigitsValue(joined)
  {
    var digits := TrimLeftZeros(joined);
    var zeros := joined[..|joined| - |digits|];
    assert joined == zeros + digits;
    LeadingZeros(zeros, digits, |joined|);
  }

  lemma TrimmedRight(digits: string)
    requires AllDigits(digits) && (digits != "" ==> digits[0] != '0')
    ensures var significant := TrimRightZeros(digits);
            && AllDigits(significant) && (significant == "" <==> digits == "")
            && (significant != "" ==> significant[0] != '0')
            && DigitsValue(digits) == Shifted(DigitsValue(significant), |digits| - |significant|)
  {
    var significant := TrimRightZeros(digits);
    var zeros := digits[|significant|..];
    assert digits == significant + zeros;
    TrailingZeros(significant, zeros);
  }

  /** Dropping leading zeros keeps the digits' value; dropping k trailing ones divides it by 10^k. */
  lemma TrimmedDigits(joined: string)
    requires AllDigits(joined)
    ensures var digits := TrimLeftZeros(joined);
            var significant := TrimRightZeros(digits);
            && AllDigits(significant) && (significant == "" <==> digits == "")
            && (significant != "" ==> significant[0] != '0')
            && DigitsValue(joined) == Shifted(DigitsValue(significant), |digits| - |significant|)
  {
    TrimmedLeft(joined);
    TrimmedRight(TrimLeftZeros(joined));
  }

  // ----------------------------------------------------- the normal form

  function Zero(): Number { Number(false, "0", "", None) }

  function SpelledExponent(scale: int): Exponent {
    if scale < 0 then Exponent('e', Minus, Decimal(-scale)) else Exponent('e', NoSign, Decimal(scale))
  }

  function Spelled(negative: bool, digits: string, scale: int): Number {
    Number(negative, digits, "", if scale == 0 then None else Some(SpelledExponent(scale)))
  }

  /** The number the normalizer spells for some digits at some scale. */
  function CanonicalOf(negative: bool, joined: string, e: int): Number {
    var digits := TrimLeftZeros(joined);
    if digits == "" then Zero() else
    var significant := TrimRightZeros(digits);
    Spelled(negative, significant, e + (|digits| - |significant|))
  }

  function Canonical(n: Number): Number
    requires n.Valid()
  {
    CanonicalOf(n.negative, n.whole + n.fraction, n.ExponentValue() - |n.fraction|)
  }

  lemma ZeroFacts()
    ensures Zero().Valid() && Zero().Coefficient() == 0 && Zero().ExponentValue() == 0 && Zero().Text() == "0"
  {
    assert "0" + "" == "0" && PrefixValue("0", 0) == 0;
  }

  lemma SpelledFacts(negative: bool, digits: string, scale: int)
    requires digits != "" && AllDigits(digits) && digits[0] != '0'
    ensures var c := Spelled(negative, digits, scale);
            && c.Valid() && c.ExponentValue() == scale
            && c.Coefficient() == Signed(negative, DigitsValue(digits))
  {
    DecimalReads(if scale < 0 then -scale else scale);
    assert digits + "" == digits;
  }

  lemma Concat(a: string, b: string, c: string)
    ensures a + (b + c) == (a + b) + c && a + "" == a
  {
  }

  lemma SpelledText(negative: bool, digits: string, scale: int)
    ensures Spelled(negative, digits, scale).Text()
         == (if negative then "-" else "") + digits + (if scale == 0 then "" else "e" + SignedDecimal(scale))
  {
    var prefix := if negative then "-" else "";
    Concat(prefix, digits, if scale == 0 then "" else "e" + SignedDecimal(scale));
    if scale > 0 {
      assert "" + Decimal(scale) == Decimal(scale);
    }
  }

  // ------------------------------------------- the normalizer's text cuts

  lemma BeforeAt(s: string, stops: set<char>, k: nat)
    requires k <= |s| && (forall i :: 0 <= i < k ==> s[i] !in stops) && (k < |s| ==> s[k] in stops)
    ensures Before(s, stops) == s[..k]
  {
    var r := StopAt(s, stops, 0);
    assert !(r < k) && !(k < r);
  }

  lemma ParseExponent(e: Exponent)
    requires e.Valid()
    ensures ParseSigned(e.sign.Text() + e.digits) == Some(e.Value())
  {
    hide DigitsValue;
    var text := e.sign.Text() + e.digits;
    if e.sign == NoSign {
      assert text == e.digits;
      assert IsDigit(text[0]);
    } else {
      assert text[0] == e.sign.Text()[0];
      assert text[1..] == e.digits;
    }
  }

  lemma CutAtSign(n: Number)
    requires n.Valid()
    ensures n.Text() != "" && (n.Text()[0] == '-' <==> n.negative)
    ensures Unsigned(n.Text()) == n.MantissaText() + n.ExponentText()
  {
    var unsigned := n.MantissaText() + n.ExponentText();
    assert unsigned[0] == n.MantissaText()[0];
    if n.negative {
      assert ("-" + unsigned)[1..] == unsigned;
    } else {
      assert "" + unsigned == unsigned;
    }
  }

  lemma CutAtMarker(m: string, e: Exponent)
    requires e.Valid() && forall i :: 0 <= i < |m| ==> m[i] !in MARKERS
    ensures var text := m + e.Text();
            && Before(text, MARKERS) == m && |m| < |text|
            && text[|m| + 1..] == e.sign.Text() + e.digits
  {
    var text := m + e.Text();
    assert text[..|m|] == m && text[|m|] == e.marker;
    assert forall i :: 0 <= i < |m| ==> text[i] == m[i];
    BeforeAt(text, MARKERS, |m|);
  }

  lemma CutAtExponent(n: Number)
    requires n.Valid()
    ensures Before(n.MantissaText() + n.ExponentText(), MARKERS) == n.MantissaText()
    ensures After(n.MantissaText() + n.ExponentText(), n.MantissaText(), "0")
         == if n.exponent.None? then "0" else n.exponent.value.sign.Text() + n.exponent.value.digits
  {
    var m := n.MantissaText();
    match n.exponent
    case None =>
      assert m + "" == m;
      BeforeAt(m, MARKERS, |m|);
    case Some(e) =>
      CutAtMarker(m, e);
  }

  lemma ReadExponent(n: Number)
    requires n.Valid()
    ensures ParseSigned(After(n.MantissaText() + n.ExponentText(), n.MantissaText(), "0")) == Some(n.ExponentValue())
  {
    CutAtExponent(n);
    match n.exponent
    case None =>
      assert PrefixValue("0", 0) == 0;
    case Some(e) =>
      ParseExponent(e);
  }

  lemma CutAtPoint(n: Number)
    requires n.Valid()
    ensures Before(n.MantissaText(), POINT) == n.whole
    ensures After(n.MantissaText(), n.whole, "") == n.fraction
  {
    var m := n.MantissaText();
    assert m[..|n.whole|] == n.whole;
    assert forall i :: 0 <= i < |n.whole| ==> m[i] == n.whole[i] && IsDigit(n.whole[i]);
    BeforeAt(m, POINT, |n.whole|);
  }

  lemma SpellsCanonical(negative: bool, joined: string, e: int)
    ensures SpellTrimmed(negative, joined, e) == CanonicalOf(negative, joined, e).Text()
  {
    var digits := TrimLeftZeros(joined);
    if digits == "" {
      ZeroFacts();
    } else {
      var significant := TrimRightZeros(digits);
      var scale := e + (|digits| - |significant|);
      SpelledText(negative, significant, scale);
      var prefix := if negative then "-" else "";
      Concat(prefix + significant, "e", SignedDecimal(scale));
    }
  }

  lemma CutBy(raw: string, mantissa: string, exponent: int, whole: string, fraction: string)
    requires Before(Unsigned(raw), MARKERS) == mantissa
    requires ParseSigned(After(Unsigned(raw), mantissa, "0")) == Some(exponent)
    requires Before(mantissa, POINT) == whole && After(mantissa, whole, "") == fraction
    ensures Cut(raw) == Some(Parts(raw != "" && raw[0] == '-', whole + fraction, exponent - |fraction|))
  {
  }

  lemma CutText(n: Number)
    requires n.Valid()
    ensures Cut(n.Text()) == Some(Parts(n.negative, n.whole + n.fraction, n.ExponentValue() - |n.fraction|))
  {
    hide Cut, ParseSigned, After, Before;
    CutAtSign(n);
    CutAtExponent(n);
    ReadExponent(n);
    CutAtPoint(n);
    CutBy(n.Text(), n.MantissaText(), n.ExponentValue(), n.whole, n.fraction);
  }

  lemma NormalizeSpellsCanonical(n: Number)
    requires n.Valid()
    ensures Normalize(n.Text()) == Success(Canonical(n).Text())
  {
    hide Cut, SpellTrimmed, CanonicalOf;
    CutText(n);
    SpellsCanonical(n.negative, n.whole + n.fraction, n.ExponentValue() - |n.fraction|);
  }

  lemma SpelledValue(negative: bool, digits: string, e: int, k: nat)
    requires digits != "" && AllDigits(digits) && digits[0] != '0'
    ensures Shifted(DigitsValue(digits), k) >= 0
    ensures var c := Spelled(negative, digits, e + k);
            c.Valid() && c.Value() == Scale10(Signed(negative, Shifted(DigitsValue(digits), k)) as real, e)
  {
    SpelledFacts(negative, digits, e + k);
    ShiftedSign(negative, DigitsValue(digits), k);
    ShiftScale(Signed(negative, DigitsValue(digits)), e, k);
  }

  lemma CanonicalOfValue(negative: bool, joined: string, e: int)
    requires AllDigits(joined)
    ensures var c := CanonicalOf(negative, joined, e);
            c.Valid() && c.Value() == Scale10(Signed(negative, DigitsValue(joined)) as real, e)
  {
    var digits := TrimLeftZeros(joined);
    TrimmedDigits(joined);
    if digits == "" {
      ZeroFacts();
      ScaleZero(e);
    } else {
      var significant := TrimRightZeros(digits);
      SpelledValue(negative, significant, e, |digits| - |significant|);
    }
  }

  /** Normalization keeps the rational value. */
  lemma CanonicalPreservesValue(n: Number)
    requires n.Valid()
    ensures Canonical(n).Valid() && Canonical(n).Value() == n.Value()
  {
    CanonicalOfValue(n.negative, n.whole + n.fraction, n.ExponentValue() - |n.fraction|);
  }

  // --------------------------------------------- equal values, equal text

  predicate IsCanonical(c: Number) {
    || c == Zero()
    || (&& c.Valid() && c.whole[0] != '0' && c.whole[|c.whole| - 1] != '0'
        && c == Spelled(c.negative, c.whole, c.ExponentValue()))
  }

  lemma SpelledIsCanonical(negative: bool, digits: string, scale: int)
    requires digits != "" && AllDigits(digits) && digits[0] != '0' && digits[|digits| - 1] != '0'
    ensures IsCanonical(Spelled(negative, digits, scale))
  {
    SpelledFacts(negative, digits, scale);
  }

  lemma CanonicalOfIsCanonical(negative: bool, joined: string, e: int)
    requires AllDigits(joined)
    ensures IsCanonical(CanonicalOf(negative, joined, e))
  {
    var digits := TrimLeftZeros(joined);
    TrimmedDigits(joined);
    if digits != "" {
      var significant := TrimRightZeros(digits);
      SpelledIsCanonical(negative, significant, e + (|digits| - |significant|));
    }
  }

  lemma CanonicalIsCanonical(n: Number)
    requires n.Valid()
    ensures IsCanonical(Canonical(n))
  {
    CanonicalOfIsCanonical(n.negative, n.whole + n.fraction, n.ExponentValue() - |n.fraction|);
  }

  /** A canonical number's coefficient is zero or does not end in zero. */
  lemma CanonicalCoefficient(c: Number)
    requires IsCanonical(c)
    ensures c.Valid() && c.fraction == ""
    ensures c == Zero() <==> c.Coefficient() == 0
    ensures c != Zero() ==> c.Coefficient() % 10 != 0
  {
    ZeroFacts();
    if c != Zero() {
      SpelledFacts(c.negative, c.whole, c.ExponentValue());
    }
  }

  /** Two coefficients not divisible by ten that denote one rational are the same, at the same scale. */
  lemma SameRational(m: int, n: int, e: int, f: int)
    requires m % 10 != 0 && n % 10 != 0
    requires Scale10(m as real, e) == Scale10(n as real, f)
    ensures m == n && e == f
    decreases e < f
  {
    hide Scale10;
    if e < f {
      SameRational(n, m, f, e);
    } else {
      ShiftScale(m, f, e - f);
      ScaleInjective(Shifted(m, e - f) as real, n as real, f);
    }
  }

  lemma ZeroValue(m: int, e: int)
    ensures Scale10(m as real, e) == 0.0 <==> m == 0
  {
    ScaleZero(e);
    if Scale10(m as real, e) == 0.0 {
      ScaleInjective(m as real, 0.0, e);
    }
  }

  lemma {:induction false} CanonicalUnique(a: Number, b: Number)
    requires IsCanonical(a) && IsCanonical(b)
    requires a.Valid() && b.Valid() && a.Value() == b.Value()
    ensures a == b
  {
    CanonicalCoefficient(a);
    CanonicalCoefficient(b);
    ZeroValue(a.Coefficient(), a.ExponentValue());
    ZeroValue(b.Coefficient(), b.ExponentValue());
    if a != Zero() {
      SameRational(a.Coefficient(), b.Coefficient(), a.ExponentValue(), b.ExponentValue());
      SpelledFacts(a.negative, a.whole, a.ExponentValue());
      SpelledFacts(b.negative, b.whole, b.ExponentValue());
      PositiveDigits(a.whole, |a.whole|);
      PositiveDigits(b.whole, |b.whole|);
      DigitsInjective(a.whole, b.whole, |a.whole|, |b.whole|);
    }
  }

  lemma CanonicalFixed(c: Number)
    requires IsCanonical(c)
    ensures c.Valid() && Canonical(c) == c
  {
    CanonicalCoefficient(c);
    CanonicalIsCanonical(c);
    CanonicalPreservesValue(c);
    CanonicalUnique(Canonical(c), c);
  }

  /** The spelling of a canonical number determines it. */
  lemma CanonicalTextInjective(a: Number, b: Number)
    requires IsCanonical(a) && IsCanonical(b) && a.Text() == b.Text()
    ensures a == b
  {
    CanonicalCoefficient(a);
    CanonicalCoefficient(b);
    CutAtSign(a);
    CutAtSign(b);
    CutAtExponent(a);
    CutAtExponent(b);
    ReadExponent(a);
    ReadExponent(b);
    assert a.whole == b.whole && a.ExponentValue() == b.ExponentValue();
    ZeroFacts();
  }

  // ------------------------------------------------------------- theorems

  /** Every JSON number normalizes to the text of a JSON number with the same value. */
  lemma NormalizePreservesValue(n: Number)
    requires n.Valid()
    ensures exists c: Number :: c.Valid() && Normalize(n.Text()) == Success(c.Text()) && c.Value() == n.Value()
  {
    NormalizeSpellsCanonical(n);
    CanonicalPreservesValue(n);
    assert Canonical(n).Valid();
  }

  lemma NormalizeIdempotent(n: Number)
    requires n.Valid()
    ensures Normalize(n.Text()).Success?
    ensures Normalize(Normalize(n.Text()).value) == Normalize(n.Text())
  {
    NormalizeSpellsCanonical(n);
    CanonicalIsCanonical(n);
    CanonicalFixed(Canonical(n));
    NormalizeSpellsCanonical(Canonical(n));
  }

  lemma CanonicalDecidesValue(a: Number, b: Number)
    requires a.Valid() && b.Valid()
    ensures Canonical(a) == Canonical(b) <==> a.Value() == b.Value()
  {
    CanonicalIsCanonical(a);
    CanonicalIsCanonical(b);
    CanonicalPreservesValue(a);
    CanonicalPreservesValue(b);
    hide Canonical, Number.Value;
    if a.Value() == b.Value() {
      CanonicalUnique(Canonical(a), Canonical(b));
    }
  }

  /** Two JSON numbers get the same normal form exactly when they denote the same rational. */
  lemma NormalizeDecidesValue(a: Number, b: Number)
    requires a.Valid() && b.Valid()
    ensures Normalize(a.Text()) == Normalize(b.Text()) <==> a.Value() == b.Value()
  {
    NormalizeSpellsCanonical(a);
    NormalizeSpellsCanonical(b);
    CanonicalIsCanonical(a);
    CanonicalIsCanonical(b);
    CanonicalDecidesValue(a, b);
    if Canonical(a).Text() == Canonical(b).Text() {
      CanonicalTextInjective(Canonical(a), Canonical(b));
    }
  }
}
