/**
  canonicalNumber: one text for every decimal value, computed on strings. The value of a text is
  defined separately, as a real number; JSON numbers are those of section 6 of RFC 8259.
*/
module CanonicalNumber {
  import opened Prelude
  import opened Decimal
  import opened Reals

  const EXPONENT_LIMIT := 100000

  function IndexOf(s: string, c: char): (i: nat)
    ensures i <= |s| && c !in s[..i] && (i < |s| ==> s[i] == c)
  {
    if s == "" || s[0] == c then 0 else
      var i := IndexOf(s[1..], c) + 1;
      assert s[..i] == [s[0]] + s[1..][..i - 1];
      i
  }

  /** strings.SplitN(s, c, 2), when it gives two parts. */
  function Cut(s: string, c: char): Option<(string, string)> {
    var i := IndexOf(s, c);
    if i == |s| then None else Some((s[..i], s[i + 1..]))
  }

  /** A decimal text, taken apart: whole digits, digits after the dot, and exponent. */
  datatype Parts = Parts(negative: bool, whole: string, fraction: string, exponent: int)

  predicate Numeric(p: Parts) { AllDigits(p.whole) && AllDigits(p.fraction) && p.whole + p.fraction != "" }

  function ParseMantissa(negative: bool, mantissa: string, exponent: int): (r: Option<Parts>)
    ensures r.Some? ==> Numeric(r.value)
  {
    var (whole, fraction) := match Cut(mantissa, '.') case None => (mantissa, "") case Some(cut) => cut;
    if AllDigits(whole) && AllDigits(fraction) && whole + fraction != "" then
      Some(Parts(negative, whole, fraction, exponent))
    else None
  }

  /** The exponent mark is the first e, or the first E of a text without e. */
  function CutExponent(s: string): Option<(string, string)> {
    if Cut(s, 'e').Some? then Cut(s, 'e') else Cut(s, 'E')
  }

  function Parse(raw: string): (r: Option<Parts>)
    ensures r.Some? ==> Numeric(r.value)
  {
    var negative := raw != "" && raw[0] == '-';
    var s := if negative then raw[1..] else raw;
    match CutExponent(s)
    case None => ParseMantissa(negative, s, 0)
    case Some((mantissa, exponent)) =>
      match Atoi(exponent)
      case None => None
      case Some(e) => ParseMantissa(negative, mantissa, e)
  }

  // ---- what a text means

  ghost function Signed(negative: bool, v: real): real { if negative then -v else v }

  ghost function Value(p: Parts): real
    requires Numeric(p)
  {
    Signed(p.negative,
           (Nat(p.whole) as real + Nat(p.fraction) as real * Scale(-|p.fraction|)) * Scale(p.exponent))
  }

  // ---- the normal form: digits without zeros at either end, and the position of the dot

  datatype Normal = Zero | Normal(negative: bool, digits: string, position: int)

  predicate Normalized(n: Normal) {
    n.Normal? ==>
      && AllDigits(n.digits) && n.digits != ""
      && n.digits[0] != '0' && n.digits[|n.digits| - 1] != '0'
  }

  ghost function NormalValue(n: Normal): real
    requires Normalized(n)
  {
    match n
    case Zero => 0.0
    case Normal(negative, digits, position) => Signed(negative, Nat(digits) as real * Scale(position - |digits|))
  }

  function TrimLeftZeros(s: string): string { if s != "" && s[0] == '0' then TrimLeftZeros(s[1..]) else s }

  function TrimRightZeros(s: string): string {
    if s != "" && s[|s| - 1] == '0' then TrimRightZeros(s[..|s| - 1]) else s
  }

  function Normalize(p: Parts): Normal {
    var digits := p.whole + p.fraction;
    var trimmed := TrimLeftZeros(digits);
    if trimmed == "" then Zero
    else Normal(p.negative, TrimRightZeros(trimmed), |p.whole| + p.exponent - (|digits| - |trimmed|))
  }

  // ---- the canonical text

  function Sign(negative: bool): string { if negative then "-" else "" }

  function Plain(digits: string, position: int): string
    requires -6 < position <= 21
  {
    if position <= 0 then "0." + Zeros(-position) + digits
    else if position >= |digits| then digits + Zeros(position - |digits|)
    else digits[..position] + "." + digits[position..]
  }

  function Scientific(digits: string, position: int): string
    requires digits != ""
  {
    digits[..1] + (if |digits| > 1 then "." + digits[1..] else "") + "e" + Itoa(position - 1)
  }

  function Render(n: Normal): string
    requires Normalized(n)
  {
    match n
    case Zero => "0"
    case Normal(negative, digits, position) =>
      Sign(negative) + if -6 < position <= 21 then Plain(digits, position) else Scientific(digits, position)
  }

  predicate InRange(p: Parts) { -EXPONENT_LIMIT <= p.exponent <= EXPONENT_LIMIT }

  function Canonical(raw: string): Option<string> {
    match Parse(raw)
    case None => None
    case Some(p) =>
      if InRange(p) then (NormalizeNormalizes(p); Some(Render(Normalize(p)))) else None
  }

  // ---- trimming zeros

  lemma {:induction false} TrimLeft(s: string)
    requires AllDigits(s)
    ensures var t := TrimLeftZeros(s);
            && |t| <= |s| && s == Zeros(|s| - |t|) + t && AllDigits(t)
            && (t != "" ==> t[0] != '0')
  {
    if s != "" && s[0] == '0' {
      TrimLeft(s[1..]);
      var t := TrimLeftZeros(s);
      var n := |s| - |t|;
      assert s == ['0'] + (Zeros(n - 1) + t);
      ZerosUnique(['0'] + Zeros(n - 1));
    } else {
      assert s == Zeros(0) + s;
    }
  }

  lemma {:induction false} TrimRight(s: string)
    requires AllDigits(s)
    ensures var t := TrimRightZeros(s);
            && |t| <= |s| && s == t + Zeros(|s| - |t|) && AllDigits(t)
            && (t != "" ==> t[|t| - 1] != '0')
            && (s != "" && s[0] != '0' ==> t != "" && t[0] == s[0])
  {
    if s != "" && s[|s| - 1] == '0' {
      TrimRight(s[..|s| - 1]);
      var t := TrimRightZeros(s);
      var n := |s| - |t|;
      assert s == (t + Zeros(n - 1)) + ['0'] == t + (Zeros(n - 1) + ['0']);
    } else {
      assert s == s + Zeros(0);
    }
  }

  lemma NormalizeNormalizes(p: Parts)
    requires Numeric(p)
    ensures Normalized(Normalize(p))
  {
    var digits := p.whole + p.fraction;
    TrimLeft(digits);
    TrimRight(TrimLeftZeros(digits));
  }

  // ---- values of digit strings at a scale

  ghost function Magnitude(digits: string, exponent: int): real
    requires AllDigits(digits)
  {
    Nat(digits) as real * Scale(exponent)
  }

  lemma LeadingZeros(k: nat, digits: string, exponent: int)
    requires AllDigits(digits)
    ensures AllDigits(Zeros(k) + digits)
    ensures Magnitude(Zeros(k) + digits, exponent) == Magnitude(digits, exponent)
  {
    hide Scale, Nat;
    NatConcat(Zeros(k), digits);
    NatZeros(k);
  }

  lemma TrailingZeros(digits: string, k: nat, exponent: int)
    requires AllDigits(digits)
    ensures AllDigits(digits + Zeros(k))
    ensures Magnitude(digits + Zeros(k), exponent) == Magnitude(digits, exponent + k)
  {
    hide Scale, Nat;
    NatConcat(digits, Zeros(k));
    NatZeros(k);
    ScaleAdd(k, exponent);
    TimesAssociative(Nat(digits) as real, Scale(k), Scale(exponent));
  }

  lemma FractionScale(w: real, f: real, s: real, inverse: real)
    requires s * inverse == 1.0
    ensures (w * s + f) * inverse == w + f * inverse
  {
    TimesAssociative(w, s, inverse);
    Distribute(w * s, f, inverse);
  }

  lemma PartsMagnitude(p: Parts)
    requires Numeric(p)
    ensures AllDigits(p.whole + p.fraction)
    ensures Value(p) == Signed(p.negative, Magnitude(p.whole + p.fraction, p.exponent - |p.fraction|))
  {
    hide Scale, Nat;
    var n := |p.fraction|;
    NatConcat(p.whole, p.fraction);
    ScaleAdd(n, -n);
    ScaleZero();
    FractionScale(Nat(p.whole) as real, Nat(p.fraction) as real, Scale(n), Scale(-n));
    ScaleAdd(-n, p.exponent);
    TimesAssociative(Nat(p.whole + p.fraction) as real, Scale(-n), Scale(p.exponent));
  }

  /** Normalizing keeps the exact value. */
  lemma NormalizeValue(p: Parts)
    requires Numeric(p)
    ensures Normalized(Normalize(p)) && NormalValue(Normalize(p)) == Value(p)
  {
    hide Magnitude, Value, NormalValue, Scale, Nat, TrimLeftZeros, TrimRightZeros;
    NormalizeNormalizes(p);
    PartsMagnitude(p);
    var trimmed := TrimLeftZeros(p.whole + p.fraction);
    TrimmedMagnitude(p.whole + p.fraction, p.exponent - |p.fraction|);
    if trimmed == "" {
      ZeroMagnitude(p.exponent - |p.fraction|);
      ZeroValue();
    } else {
      NormalMagnitude(Normalize(p));
    }
  }

  lemma TrimmedMagnitude(digits: string, exponent: int)
    requires AllDigits(digits)
    ensures var trimmed := TrimLeftZeros(digits);
            var core := TrimRightZeros(trimmed);
            && AllDigits(trimmed) && AllDigits(core) && |core| <= |trimmed| <= |digits|
            && Magnitude(digits, exponent) == Magnitude(core, exponent + (|trimmed| - |core|))
            && (trimmed == "" ==> Magnitude(digits, exponent) == Magnitude("", exponent))
  {
    hide Magnitude, TrimLeftZeros, TrimRightZeros;
    var trimmed := TrimLeftZeros(digits);
    TrimLeft(digits);
    TrimRight(trimmed);
    LeadingZeros(|digits| - |trimmed|, trimmed, exponent);
    var core := TrimRightZeros(trimmed);
    TrailingZeros(core, |trimmed| - |core|, exponent);
  }

  lemma NormalMagnitude(n: Normal)
    requires Normalized(n) && n.Normal?
    ensures NormalValue(n) == Signed(n.negative, Magnitude(n.digits, n.position - |n.digits|))
  {
    hide Scale, Nat;
  }

  lemma ZeroValue()
    ensures NormalValue(Zero) == 0.0
  {}

  lemma ZeroMagnitude(exponent: int)
    ensures Magnitude("", exponent) == 0.0
  {}

  // ---- the normal form of a value is unique

  lemma MagnitudeBounds(digits: string, position: int)
    requires Normalized(Normal(false, digits, position))
    ensures Scale(position - 1) <= Magnitude(digits, position - |digits|) < Scale(position)
  {
    hide Scale, Nat;
    var n := Nat(digits) as real;
    var e := position - |digits|;
    NatBounds(digits);
    ScalePositive(e);
    ScaleAdd(|digits|, e);
    ScaleAdd(|digits| - 1, e);
    OrderTimes(Scale(|digits| - 1), n, Scale(e));
    OrderTimes(Scale(|digits|), n, Scale(e));
  }

  lemma PositionUnique(a: string, b: string, p: int, q: int)
    requires Normalized(Normal(false, a, p)) && Normalized(Normal(false, b, q))
    requires Magnitude(a, p - |a|) == Magnitude(b, q - |b|)
    ensures p <= q
  {
    hide Magnitude, Scale;
    MagnitudeBounds(a, p);
    MagnitudeBounds(b, q);
    if q < p {
      if q < p - 1 { ScaleMonotone(q, p - 1); }
      ScalePositive(q);
    }
  }

  lemma PaddedEqual(a: string, b: string, p: int)
    requires AllDigits(a) && AllDigits(b) && |a| <= |b|
    requires Magnitude(a, p - |a|) == Magnitude(b, p - |b|)
    ensures a + Zeros(|b| - |a|) == b
  {
    hide Scale, Nat, Zeros;
    var padded := a + Zeros(|b| - |a|);
    TrailingZeros(a, |b| - |a|, p - |b|);
    ScalePositive(p - |b|);
    OrderTimes(Nat(padded) as real, Nat(b) as real, Scale(p - |b|));
    OrderTimes(Nat(b) as real, Nat(padded) as real, Scale(p - |b|));
    NatInjective(padded, b);
  }

  lemma DigitsUnique(a: string, b: string, p: int)
    requires Normalized(Normal(false, a, p)) && Normalized(Normal(false, b, p)) && |a| <= |b|
    requires Magnitude(a, p - |a|) == Magnitude(b, p - |b|)
    ensures a == b
  {
    hide Magnitude;
    PaddedEqual(a, b, p);
  }

  lemma NormalUnique(a: Normal, b: Normal)
    requires Normalized(a) && Normalized(b) && NormalValue(a) == NormalValue(b)
    ensures a == b
  {
    hide Scale, Nat;
    NormalSign(a);
    NormalSign(b);
    if a.Normal? && b.Normal? {
      var x, y := a.digits, b.digits;
      PositionUnique(x, y, a.position, b.position);
      PositionUnique(y, x, b.position, a.position);
      if |x| <= |y| { DigitsUnique(x, y, a.position); } else { DigitsUnique(y, x, a.position); }
    }
  }

  lemma NormalSign(n: Normal)
    requires Normalized(n)
    ensures n.Zero? <==> NormalValue(n) == 0.0
    ensures n.Normal? ==>
              var m := Magnitude(n.digits, n.position - |n.digits|);
              m > 0.0 && NormalValue(n) == Signed(n.negative, m)
  {
    hide Scale, Nat, Magnitude, NormalValue;
    ZeroValue();
    if n.Normal? {
      NormalMagnitude(n);
      MagnitudeBounds(n.digits, n.position);
      ScalePositive(n.position - 1);
    }
  }

  // ---- spellings

  /** A number as written: whole digits, digits after a dot, and an exponent with its mark. */
  datatype Literal = Literal(negative: bool, whole: string, fraction: Option<string>, exponent: Option<(char, string)>)

  function SpellUnsigned(l: Literal): string {
    l.whole + SpellFraction(l.fraction) + SpellExponent(l.exponent)
  }

  function Spell(l: Literal): string { Sign(l.negative) + SpellUnsigned(l) }

  function SpellFraction(fraction: Option<string>): string {
    match fraction case None => "" case Some(digits) => "." + digits
  }

  function SpellExponent(exponent: Option<(char, string)>): string {
    match exponent case None => "" case Some((mark, text)) => [mark] + text
  }

  /** What the code can take apart. */
  predicate Readable(l: Literal) {
    && Numeric(PartsOf(l))
    && (l.exponent.Some? ==> l.exponent.value.0 in ['e', 'E'] && Atoi(l.exponent.value.1).Some?)
  }

  function PartsOf(l: Literal): Parts {
    Parts(l.negative, l.whole,
          match l.fraction case None => "" case Some(digits) => digits,
          match l.exponent case None => 0 case Some((_, text)) => match Atoi(text) case None => 0 case Some(e) => e)
  }

  lemma IndexUnique(s: string, c: char, i: nat)
    requires i <= |s| && c !in s[..i] && (i < |s| ==> s[i] == c)
    ensures IndexOf(s, c) == i
  {
  }

  lemma CutAt(left: string, c: char, right: string)
    requires c !in left
    ensures Cut(left + [c] + right, c) == Some((left, right))
  {
    var s := left + [c] + right;
    assert s[..|left|] == left && s[|left| + 1..] == right;
    IndexUnique(s, c, |left|);
  }

  lemma CutNowhere(s: string, c: char)
    requires c !in s
    ensures Cut(s, c).None?
  {
    assert s[..|s|] == s;
    IndexUnique(s, c, |s|);
  }

  lemma ParseMantissaSpelled(l: Literal)
    requires Readable(l)
    ensures var p := PartsOf(l);
            ParseMantissa(l.negative, l.whole + SpellFraction(l.fraction), p.exponent) == Some(p)
  {
    if l.fraction.Some? {
      CutAt(l.whole, '.', l.fraction.value);
      assert l.whole + SpellFraction(l.fraction) == l.whole + ['.'] + l.fraction.value;
    } else {
      CutNowhere(l.whole, '.');
      assert l.whole + SpellFraction(l.fraction) == l.whole;
    }
  }

  lemma MantissaWithoutMark(l: Literal, c: char)
    requires Readable(l) && !IsDigit(c) && c != '.'
    ensures c !in l.whole + SpellFraction(l.fraction)
  {}

  lemma ExponentWithoutMark(text: string)
    requires Atoi(text).Some?
    ensures 'e' !in text
  {}

  lemma CutExponentSpelled(l: Literal)
    requires Readable(l)
    ensures CutExponent(SpellUnsigned(l))
         == match l.exponent
            case None => None
            case Some((mark, text)) => Some((l.whole + SpellFraction(l.fraction), text))
  {
    hide Cut, Atoi;
    var mantissa := l.whole + SpellFraction(l.fraction);
    MantissaWithoutMark(l, 'e');
    MantissaWithoutMark(l, 'E');
    match l.exponent
    case None =>
      assert mantissa + SpellExponent(l.exponent) == mantissa;
      CutNowhere(mantissa, 'e');
      CutNowhere(mantissa, 'E');
    case Some((mark, text)) =>
      assert mantissa + SpellExponent(l.exponent) == mantissa + [mark] + text;
      CutAt(mantissa, mark, text);
      if mark == 'E' {
        ExponentWithoutMark(text);
        CutNowhere(mantissa + [mark] + text, 'e');
      }
  }

  /** Every readable spelling is taken apart into what was spelled. */
  lemma ParseSpelled(l: Literal)
    requires Readable(l)
    ensures Parse(Spell(l)) == Some(PartsOf(l))
  {
    hide ParseMantissa, CutExponent, Atoi, Readable;
    CutExponentSpelled(l);
    ParseMantissaSpelled(l);
    ReadableParts(l);
    var unsigned := SpellUnsigned(l);
    FirstIsNotMinus(l);
    var raw := Spell(l);
    assert raw == Sign(l.negative) + unsigned;
    var s := if raw != "" && raw[0] == '-' then raw[1..] else raw;
    assert s == unsigned;
    if l.exponent.None? { assert unsigned == l.whole + SpellFraction(l.fraction); }
  }

  lemma FirstIsNotMinus(l: Literal)
    requires Readable(l)
    ensures SpellUnsigned(l) != "" && SpellUnsigned(l)[0] != '-'
  {}

  lemma ReadableParts(l: Literal)
    requires Readable(l)
    ensures Numeric(PartsOf(l))
    ensures l.exponent.Some? ==> l.exponent.value.0 in ['e', 'E'] && Atoi(l.exponent.value.1).Some?
  {}

  // ---- the canonical text has the value

  /** The spelling that Render writes. */
  function RenderedLiteral(n: Normal): Literal
    requires Normalized(n)
  {
    match n
    case Zero => Literal(false, "0", None, None)
    case Normal(negative, digits, position) =>
      if -6 < position <= 21 then
        if position <= 0 then Literal(negative, "0", Some(Zeros(-position) + digits), None)
        else if position >= |digits| then Literal(negative, digits + Zeros(position - |digits|), None, None)
        else Literal(negative, digits[..position], Some(digits[position..]), None)
      else
        Literal(negative, digits[..1], if |digits| > 1 then Some(digits[1..]) else None, Some(('e', Itoa(position - 1))))
  }

  lemma RenderedReadable(n: Normal)
    requires Normalized(n)
    ensures Readable(RenderedLiteral(n))
  {
    hide Nat, Itoa, Atoi;
    if n.Normal? { AtoiItoa(n.position - 1); }
  }

  lemma PlainSpells(negative: bool, digits: string, position: int)
    requires Normalized(Normal(negative, digits, position)) && -6 < position <= 21
    ensures SpellUnsigned(RenderedLiteral(Normal(negative, digits, position))) == Plain(digits, position)
  {
    hide Nat, Itoa, Zeros;
    var l := RenderedLiteral(Normal(negative, digits, position));
    assert SpellExponent(l.exponent) == "";
    assert SpellUnsigned(l) == l.whole + SpellFraction(l.fraction);
    if position <= 0 {
      assert "0." == "0" + ".";
      assert "0" + ("." + (Zeros(-position) + digits)) == "0." + Zeros(-position) + digits;
    } else if position >= |digits| {
      assert l.whole + "" == l.whole;
    } else {
      assert digits[..position] + ("." + digits[position..]) == digits[..position] + "." + digits[position..];
    }
  }

  lemma ScientificSpells(negative: bool, digits: string, position: int)
    requires Normalized(Normal(negative, digits, position)) && !(-6 < position <= 21)
    ensures SpellUnsigned(RenderedLiteral(Normal(negative, digits, position))) == Scientific(digits, position)
  {
    hide Nat, Itoa;
    var l := RenderedLiteral(Normal(negative, digits, position));
    assert SpellFraction(l.fraction) == if |digits| > 1 then "." + digits[1..] else "";
    var mantissa := l.whole + SpellFraction(l.fraction);
    assert mantissa + ("e" + Itoa(position - 1)) == mantissa + "e" + Itoa(position - 1);
  }

  lemma RenderedSpells(n: Normal)
    requires Normalized(n)
    ensures Spell(RenderedLiteral(n)) == Render(n)
  {
    hide Plain, Scientific, Zeros, Nat, Itoa;
    match n
    case Zero =>
    case Normal(negative, digits, position) =>
      if -6 < position <= 21 {
        PlainSpells(negative, digits, position);
      } else {
        ScientificSpells(negative, digits, position);
      }
  }

  lemma RenderValue(n: Normal)
    requires Normalized(n)
    ensures Readable(RenderedLiteral(n))
    ensures Value(PartsOf(RenderedLiteral(n))) == NormalValue(n)
  {
    hide Magnitude, Value, NormalValue, Scale, Nat, Itoa, Atoi;
    RenderedReadable(n);
    var p := PartsOf(RenderedLiteral(n));
    PartsMagnitude(p);
    match n
    case Zero =>
      ZeroValue();
      assert p.whole + p.fraction == Zeros(1) + "";
      LeadingZeros(1, "", 0);
      ZeroMagnitude(0);
    case Normal(negative, digits, position) =>
      NormalMagnitude(n);
      if -6 < position <= 0 {
        assert p.whole + p.fraction == Zeros(1 - position) + digits;
        LeadingZeros(1 - position, digits, position - |digits|);
      } else if |digits| <= position <= 21 {
        assert p.whole + p.fraction == digits + Zeros(position - |digits|);
        TrailingZeros(digits, position - |digits|, 0);
      } else {
        AtoiItoa(position - 1);
        assert p.whole + p.fraction == digits;
      }
  }

  // ---- main results

  ghost function TextValue(s: string): Option<real> {
    match Parse(s) case None => None case Some(p) => Some(Value(p))
  }

  /** The canonical text means what the input means, exactly. */
  lemma CanonicalKeepsValue(raw: string)
    requires Canonical(raw).Some?
    ensures TextValue(raw).Some? && TextValue(Canonical(raw).value) == TextValue(raw)
  {
    hide Value, NormalValue, Render, Normalize, Normalized, Spell, Readable, RenderedLiteral, PartsOf;
    var p := Parse(raw).value;
    NormalizeValue(p);
    var n := Normalize(p);
    RenderValue(n);
    RenderedSpells(n);
    ParseSpelled(RenderedLiteral(n));
  }

  /** Two accepted texts become the same text exactly when they denote the same value. */
  lemma SameTextIffSameValue(a: string, b: string)
    requires Canonical(a).Some? && Canonical(b).Some?
    ensures Canonical(a) == Canonical(b) <==> TextValue(a) == TextValue(b)
  {
    hide Value, NormalValue, Render, Normalize, Normalized, Parse;
    CanonicalKeepsValue(a);
    CanonicalKeepsValue(b);
    var p, q := Parse(a).value, Parse(b).value;
    NormalizeValue(p);
    NormalizeValue(q);
    if Value(p) == Value(q) { NormalUnique(Normalize(p), Normalize(q)); }
  }

  /** The number grammar of section 6 of RFC 8259. */
  predicate JsonNumber(l: Literal) {
    && AllDigits(l.whole) && l.whole != "" && (l.whole[0] == '0' ==> l.whole == "0")
    && (l.fraction.Some? ==> AllDigits(l.fraction.value) && l.fraction.value != "")
    && (l.exponent.Some? ==> l.exponent.value.0 in ['e', 'E'] && JsonExponent(l.exponent.value.1))
  }

  predicate JsonExponent(text: string) {
    var digits := if text != "" && text[0] in ['+', '-'] then text[1..] else text;
    AllDigits(digits) && digits != ""
  }

  lemma ItoaIsJsonExponent(n: int)
    ensures JsonExponent(Itoa(n))
  {
    if n < 0 {
      assert ("-" + Digits(-n))[1..] == Digits(-n);
    } else {
      assert IsDigit(Digits(n)[0]);
    }
  }

  lemma RenderedIsJson(n: Normal)
    requires Normalized(n)
    ensures JsonNumber(RenderedLiteral(n))
    ensures RenderedLiteral(n).fraction.Some? ==>
              var f := RenderedLiteral(n).fraction.value; f != "" && f[|f| - 1] != '0'
  {
    hide Itoa, JsonExponent;
    if n.Normal? { ItoaIsJsonExponent(n.position - 1); }
  }

  /** The normal form is plain exactly for values from a millionth to below ten to the 21. */
  lemma PlainExactly(n: Normal)
    requires Normalized(n) && n.Normal?
    ensures var v := NormalValue(n); var m := if v < 0.0 then -v else v;
            Scale(-6) <= m < Scale(21) <==> -6 < n.position <= 21
  {
    hide Scale, Magnitude, NormalValue;
    NormalSign(n);
    MagnitudeBounds(n.digits, n.position);
    if n.position <= -6 {
      if n.position < -6 { ScaleMonotone(n.position, -6); }
      ScalePositive(n.position);
    } else if n.position > 21 {
      if n.position > 22 { ScaleMonotone(21, n.position - 1); }
      ScalePositive(21);
    } else {
      if n.position > -5 { ScaleMonotone(-6, n.position - 1); }
      if n.position < 21 { ScaleMonotone(n.position, 21); }
      ScalePositive(-6);
      ScalePositive(n.position);
    }
  }

  /**
    What the canonical text looks like: a JSON number without needless zeros, with an exponent exactly
    when the value is not zero and lies outside of [0.000001, 10^21), and then with one digit before the dot.
  */
  lemma CanonicalForm(raw: string) returns (l: Literal)
    requires Canonical(raw).Some?
    ensures JsonNumber(l) && Spell(l) == Canonical(raw).value && TextValue(raw).Some?
    ensures var v := TextValue(raw).value; var m := if v < 0.0 then -v else v;
            && (l.exponent.Some? <==> v != 0.0 && !(Scale(-6) <= m < Scale(21)))
            && (l.negative <==> v < 0.0)
    ensures l.fraction.Some? ==> l.fraction.value[|l.fraction.value| - 1] != '0'
    ensures l.exponent.Some? ==> |l.whole| == 1 && l.whole != "0" && l.exponent.value.0 == 'e'
  {
    hide Value, NormalValue, Render, Normalize, Scale, Spell, JsonNumber, Parse, Itoa, Magnitude;
    var p := Parse(raw).value;
    NormalizeNormalizes(p);
    NormalizeValue(p);
    var n := Normalize(p);
    RenderedSpells(n);
    RenderedIsJson(n);
    NormalSign(n);
    JsonFraction(RenderedLiteral(n));
    if n.Normal? { PlainExactly(n); }
    l := RenderedLiteral(n);
  }

  lemma JsonFraction(l: Literal)
    requires JsonNumber(l)
    ensures l.fraction.Some? ==> l.fraction.value != ""
  {}

  /** Every JSON number is read, and is accepted exactly when its written exponent is in range. */
  lemma JsonNumberAccepted(l: Literal)
    requires JsonNumber(l)
    ensures Parse(Spell(l)) == Some(PartsOf(l))
    ensures Canonical(Spell(l)).Some? <==> -100000 <= PartsOf(l).exponent <= 100000
  {
    hide Spell, Parse, Nat;
    ParseSpelled(l);
    NormalizeNormalizes(PartsOf(l));
  }

  /** On JSON numbers: equal texts exactly for equal values, whatever the spellings. */
  lemma JsonNumbersCanonical(l: Literal, m: Literal)
    requires JsonNumber(l) && InRange(PartsOf(l))
    requires JsonNumber(m) && InRange(PartsOf(m))
    ensures Canonical(Spell(l)).Some? && Canonical(Spell(m)).Some?
    ensures Numeric(PartsOf(l)) && Numeric(PartsOf(m))
    ensures Canonical(Spell(l)) == Canonical(Spell(m)) <==> Value(PartsOf(l)) == Value(PartsOf(m))
  {
    hide Spell, Parse, Value, Canonical;
    JsonNumberAccepted(l);
    JsonNumberAccepted(m);
    SameTextIffSameValue(Spell(l), Spell(m));
    hide JsonNumber;
  }

  /**
    The bound is on the exponent as written, so it is not a property of the value. A canonical text
    is accepted again, and is then unchanged, exactly when its own exponent is in range.
  */
  lemma CanonicalAgain(raw: string)
    requires Canonical(raw).Some?
    ensures var n := Normalize(Parse(raw).value);
            var text := Canonical(raw).value;
            && (n.Zero? || -EXPONENT_LIMIT <= n.position - 1 <= EXPONENT_LIMIT <==> Canonical(text).Some?)
            && (Canonical(text).Some? ==> Canonical(text) == Some(text))
  {
    hide Value, NormalValue, Render, Normalize, Normalized, Spell, Readable;
    var p := Parse(raw).value;
    NormalizeNormalizes(p);
    var n := Normalize(p);
    var l := RenderedLiteral(n);
    RenderedReadable(n);
    RenderedSpells(n);
    ParseSpelled(l);
    RenderedExponent(n);
    NormalizeNormalizes(PartsOf(l));
    if Canonical(Render(n)).Some? {
      CanonicalKeepsValue(raw);
      SameTextIffSameValue(raw, Render(n));
    }
  }

  lemma RenderedExponent(n: Normal)
    requires Normalized(n)
    ensures PartsOf(RenderedLiteral(n)).exponent
         == if n.Zero? || -6 < n.position <= 21 then 0 else n.position - 1
  {
    hide Itoa, Atoi, Nat;
    if n.Normal? { AtoiItoa(n.position - 1); }
  }

  function Huge(digits: string, exponent: nat): Literal { Literal(false, digits, None, Some(('e', Itoa(exponent)))) }

  lemma HugeIsJson(digits: string, exponent: nat)
    requires digits == "1" || digits == "10"
    ensures JsonNumber(Huge(digits, exponent)) && PartsOf(Huge(digits, exponent)) == Parts(false, digits, "", exponent)
    ensures Canonical(Spell(Huge(digits, exponent))).Some? <==> exponent <= EXPONENT_LIMIT
    ensures Parse(Spell(Huge(digits, exponent))) == Some(Parts(false, digits, "", exponent))
  {
    hide Itoa, Atoi, JsonExponent, Canonical, Parse, Spell;
    AtoiItoa(exponent);
    ItoaIsJsonExponent(exponent);
    JsonNumberAccepted(Huge(digits, exponent));
  }

  /** A witness: ten times 10^100000 is accepted, and its canonical text is not. */
  lemma AcceptanceDependsOnSpelling()
    ensures var l, m := Huge("10", EXPONENT_LIMIT), Huge("1", EXPONENT_LIMIT + 1);
            && JsonNumber(l) && JsonNumber(m)
            && Canonical(Spell(l)) == Some(Spell(m)) && Canonical(Spell(m)).None?
  {
    hide Nat, Atoi, Itoa, Parse, Spell, JsonNumber, Render, Normalize;
    HugeIsJson("10", EXPONENT_LIMIT);
    HugeIsJson("1", EXPONENT_LIMIT + 1);
    OneAsNormal();
    RenderedSpells(Normal(false, "1", EXPONENT_LIMIT + 2));
    assert RenderedLiteral(Normal(false, "1", EXPONENT_LIMIT + 2)) == Huge("1", EXPONENT_LIMIT + 1);
  }

  lemma OneAsNormal()
    ensures Normalize(Parts(false, "10", "", EXPONENT_LIMIT)) == Normal(false, "1", EXPONENT_LIMIT + 2)
  {
    assert "10" + "" == "10" && "10"[..1] == "1";
  }

  predicate NumberChar(c: char) { IsDigit(c) || c in ['-', '.', 'e'] }

  lemma ItoaChars(n: int)
    ensures forall c :: c in Itoa(n) ==> NumberChar(c)
  {}

  lemma UnsignedChars(n: Normal)
    requires Normalized(n) && n.Normal?
    ensures var s := if -6 < n.position <= 21 then Plain(n.digits, n.position) else Scientific(n.digits, n.position);
            s != "" && IsDigit(s[0]) && forall c :: c in s ==> NumberChar(c)
  {
    hide Itoa;
    ItoaChars(n.position - 1);
  }

  /** What the canonical text is made of; a JSON printer relies on it to tell where a number ends. */
  lemma CanonicalChars(raw: string)
    requires Canonical(raw).Some?
    ensures var text := Canonical(raw).value;
            text != "" && (IsDigit(text[0]) || text[0] == '-') && forall c :: c in text ==> NumberChar(c)
  {
    hide Plain, Scientific, Parse, Normalize;
    NormalizeNormalizes(Parse(raw).value);
    var n := Normalize(Parse(raw).value);
    if n.Normal? { UnsignedChars(n); }
  }

  // ---- the loop of the code

  lemma MantissaDigits(negative: bool, mantissa: string, exponent: int)
    ensures var dot := IndexOf(mantissa, '.');
            var digits := if dot < |mantissa| then mantissa[..dot] + mantissa[dot + 1..] else mantissa;
            var p := ParseMantissa(negative, mantissa, exponent);
            && (p.None? <==> digits == "" || !AllDigits(digits))
            && (p.Some? ==> p.value.whole + p.value.fraction == digits && |p.value.whole| == dot
                            && p.value.negative == negative && p.value.exponent == exponent)
  {
    var dot := IndexOf(mantissa, '.');
    if dot < |mantissa| {
      DigitsOfConcat(mantissa[..dot], mantissa[dot + 1..]);
    } else {
      assert mantissa + "" == mantissa;
    }
  }

  lemma DigitsOfConcat(s: string, t: string)
    ensures AllDigits(s + t) <==> AllDigits(s) && AllDigits(t)
  {
    if AllDigits(s + t) {
      forall i | 0 <= i < |s| ensures IsDigit(s[i]) { assert (s + t)[i] == s[i]; }
      forall i | 0 <= i < |t| ensures IsDigit(t[i]) { assert (s + t)[|s| + i] == t[i]; }
    }
  }

  lemma TrimRightEmpty(s: string)
    ensures s == "" || s[|s| - 1] != '0' ==> TrimRightZeros(s) == s
    ensures s != "" && s[|s| - 1] == '0' ==> TrimRightZeros(s) == TrimRightZeros(s[..|s| - 1])
  {}

  lemma CanonicalSteps(raw: string, p: Parts)
    requires Parse(raw) == Some(p) && InRange(p)
    ensures var digits := p.whole + p.fraction;
            var trimmed := TrimLeftZeros(digits);
            var core := TrimRightZeros(trimmed);
            var position := |p.whole| + p.exponent - (|digits| - |trimmed|);
            if trimmed == "" then Canonical(raw) == Some("0")
            else
              && core != ""
              && Canonical(raw)
              == Some(Sign(p.negative) + if -6 < position <= 21 then Plain(core, position) else Scientific(core, position))
  {
    hide Parse, Plain, Scientific, TrimLeftZeros, TrimRightZeros;
    NormalizeNormalizes(p);
  }

  lemma CanonicalRejects(raw: string)
    requires Parse(raw).None? || !InRange(Parse(raw).value)
    ensures Canonical(raw).None?
  {}

  /** canonicalNumber as written: cut the sign, the exponent and the dot, then trim zeros in place. */
  method Canonicalize(raw: string) returns (text: Option<string>)
    ensures text == Canonical(raw)
  {
    hide Cut, Atoi, ParseMantissa, IndexOf, Plain, Scientific, TrimLeftZeros, TrimRightZeros, AllDigits, Canonical, Numeric;
    if raw == "" {
      EmptyRejected();
      return None;
    }
    var negative := raw[0] == '-';
    var unsigned := if negative then raw[1..] else raw;
    var parts := Cut(unsigned, 'e');
    if parts.None? { parts := Cut(unsigned, 'E'); }
    var mantissa, exponent := unsigned, 0;
    if parts.Some? {
      var parsed := Atoi(parts.value.1);
      if parsed.None? {
        CanonicalRejects(raw);
        return None;
      }
      mantissa, exponent := parts.value.0, parsed.value;
    }
    assert Parse(raw) == ParseMantissa(negative, mantissa, exponent);
    MantissaDigits(negative, mantissa, exponent);
    hide Parse;
    if exponent < -EXPONENT_LIMIT || exponent > EXPONENT_LIMIT {
      CanonicalRejects(raw);
      return None;
    }
    var dot := IndexOf(mantissa, '.');
    var digits := if dot < |mantissa| then mantissa[..dot] + mantissa[dot + 1..] else mantissa;
    if digits == "" || !AllDigits(digits) {
      CanonicalRejects(raw);
      return None;
    }
    CanonicalSteps(raw, Parse(raw).value);
    var trimmed := TrimLeftZeros(digits);
    var position := dot + exponent - (|digits| - |trimmed|);
    digits := trimmed;
    if digits == "" { return Some("0"); }
    TrimRightEmpty(digits);
    while digits != "" && digits[|digits| - 1] == '0'
      invariant TrimRightZeros(digits) == TrimRightZeros(trimmed)
      decreases |digits|
    {
      TrimRightEmpty(digits);
      digits := digits[..|digits| - 1];
    }
    TrimRightEmpty(digits);
    text := Some(Sign(negative) + if -6 < position <= 21 then Plain(digits, position) else Scientific(digits, position));
  }

  lemma EmptyRejected()
    ensures Canonical("").None?
  {}
}
