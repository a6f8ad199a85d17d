/**
 * Reading numbers: nom's `number::complete::float` (a prefix of the input) and
 * Rust's `str::parse::<f32>` / `str::parse::<u32>` (the whole input).
 *
 * A float literal is an optional sign, then either digits with an optional
 * `.` and optional fraction digits, or `.` followed by digits, then an optional
 * exponent `e`/`E`, optional sign, digits.
 */
module Float {
  import opened Wrappers
  import opened Text
  import opened Decimal

  /** Length of the leading run of ASCII digits */
  function DigitSpan(s: string): (n: nat)
    ensures n <= |s|
    ensures AllDigits(s[..n])
    ensures n == |s| || !IsDigit(s[n])
  {
    if |s| > 0 && IsDigit(s[0]) then 1 + DigitSpan(s[1..]) else 0
  }

  /** The mantissa of a literal: its digit string (integer then fraction digits),
      the number of fraction digits, and what follows. */
  datatype Mantissa = Mantissa(digits: string, fracLen: nat, rest: string)

  function LexMantissa(t: string): (r: Option<Mantissa>)
    ensures r.Some? ==> AllDigits(r.value.digits) && |r.value.digits| > 0
    ensures r.Some? ==> IsSuffix(r.value.rest, t) && |r.value.rest| < |t|
  {
    var i := DigitSpan(t);
    var dot := i < |t| && t[i] == '.';
    var f := if dot then DigitSpan(t[i + 1..]) else 0;
    if i == 0 && f == 0 then None
    else if dot then
      assert t[i + 1..][..f] == t[i + 1..i + 1 + f];
      Some(Mantissa(t[..i] + t[i + 1..i + 1 + f], f, t[i + 1 + f..]))
    else
      Some(Mantissa(t[..i], 0, t[i..]))
  }

  datatype Exponent = NoExponent | Exponent(value: int, len: nat) | DanglingExponent

  /** The optional exponent part; an `e` with no digits after it is dangling. */
  function LexExponent(s: string): (r: Exponent)
    ensures r.Exponent? ==> 0 < r.len <= |s|
  {
    if |s| > 0 && (s[0] == 'e' || s[0] == 'E') then
      var sl := if |s| > 1 && (s[1] == '+' || s[1] == '-') then 1 else 0;
      var d := DigitSpan(s[1 + sl..]);
      if d == 0 then DanglingExponent
      else
        assert s[1 + sl..][..d] == s[1 + sl..1 + sl + d];
        var v: int := DigitsValue(s[1 + sl..1 + sl + d]);
        Exponent(if sl == 1 && s[1] == '-' then -v else v, 1 + sl + d)
    else NoExponent
  }

  /** The unsigned part of a float literal, negated when `neg` is set. */
  function LexUnsigned(u: string, neg: bool): (r: Parsed<Num>)
    ensures !r.Abort?
    ensures r.Done? ==> IsSuffix(r.rest, u) && |r.rest| < |u| && Canonical(r.value)
  {
    match LexMantissa(u)
    case None => NoMatch
    case Some(m) =>
      var magnitude: int := DigitsValue(m.digits);
      var signed: int := if neg then -magnitude else magnitude;
      match LexExponent(m.rest)
      case DanglingExponent => NoMatch
      case NoExponent => Done(Normalize(signed, m.fracLen), m.rest)
      case Exponent(e, len) =>
        var rest := m.rest[len..];
        SuffixDrop(m.rest, len);
        SuffixTrans(rest, m.rest, u);
        Done(Normalize(signed, m.fracLen - e), rest)
  }

  /**
   * nom's `float`: reads the longest float literal at the start of `s`. A
   * dangling exponent makes the whole read fail.
   */
  function LexFloat(s: string): (r: Parsed<Num>)
    ensures !r.Abort?
    ensures r.Done? ==> IsSuffix(r.rest, s) && |r.rest| < |s| && Canonical(r.value)
  {
    if |s| > 0 && (s[0] == '+' || s[0] == '-') then
      var r := LexUnsigned(s[1..], s[0] == '-');
      if r.Done? then
        SuffixDrop(s, 1);
        SuffixTrans(r.rest, s[1..], s);
        r
      else r
    else LexUnsigned(s, false)
  }

  /** A float literal starts with a sign, a digit or a point. */
  lemma LexFloatStart(s: string)
    requires s == [] || !(IsDigit(s[0]) || s[0] == '+' || s[0] == '-' || s[0] == '.')
    ensures LexFloat(s).NoMatch?
  {
    if s != [] {
      assert DigitSpan(s) == 0;
    }
  }

  /** Rust's `str::parse::<f32>`: the whole string must be one float literal. */
  function ParseF32(s: string): (r: Result<Num>)
    ensures !r.Panic?
    ensures r.Ok? <==> LexFloat(s).Done? && LexFloat(s).rest == []
    ensures r.Ok? ==> Canonical(r.value) && r.value == LexFloat(s).value
  {
    match LexFloat(s)
    case Done(n, rest) => if rest == [] then Ok(n) else Err("invalid float literal")
    case _ => Err("invalid float literal")
  }

  const U32Limit: nat := 0x1_0000_0000

  /** The text after at most one leading `+`. */
  function Unsigned(s: string): string {
    if |s| > 0 && s[0] == '+' then s[1..] else s
  }

  /** A string is all digits exactly when its leading digit run covers it. */
  lemma DigitSpanAll(d: string)
    ensures DigitSpan(d) == |d| <==> AllDigits(d)
  {
    if AllDigits(d) {
      DigitSpanConcat(d, []);
      assert d + [] == d;
    } else {
      assert d[..|d|] == d;
    }
  }

  /**
   * Rust's `str::parse::<u32>`: an optional `+`, then digits, below 2^32. A
   * value of 2^32 or more is an error, never wrapped or saturated.
   */
  function ParseU32(s: string): (r: Result<nat>)
    ensures !r.Panic?
    ensures r.Ok? <==> var d := Unsigned(s); d != [] && AllDigits(d) && DigitsValue(d) < U32Limit
    ensures r.Ok? ==> AllDigits(Unsigned(s)) && r.value == DigitsValue(Unsigned(s))
    ensures r.Ok? ==> r.value < U32Limit
    ensures r.Ok? ==> 0 < |s| && (IsDigit(s[0]) || s[0] == '+')
  {
    var d := Unsigned(s);
    DigitSpanAll(d);
    if d == [] || DigitSpan(d) != |d| then Err("invalid digit found in string")
    else
      assert d[..|d|] == d;
      var v := DigitsValue(d);
      if v < U32Limit then Ok(v) else Err("number too large to fit in target type")
  }

  /** What may follow a rendered number without being read as part of it. */
  predicate NumberEnds(t: string) {
    t == [] || !(IsDigit(t[0]) || t[0] == '.' || t[0] == 'e' || t[0] == 'E')
  }

  lemma {:induction false} DigitSpanConcat(d: string, u: string)
    requires AllDigits(d)
    requires u == [] || !IsDigit(u[0])
    ensures DigitSpan(d + u) == |d|
    decreases |d|
  {
    if d != [] {
      assert (d + u)[0] == d[0];
      assert (d + u)[1..] == d[1..] + u;
      DigitSpanConcat(d[1..], u);
    } else {
      assert d + u == u;
    }
  }

  /** The mantissa of a rendered integer part with a fraction. */
  lemma MantissaWithFraction(w: string, p: string, t: string)
    requires |w| > 0 && AllDigits(w) && |p| > 0 && AllDigits(p)
    requires NumberEnds(t)
    ensures LexMantissa(w + ("." + p) + t) == Some(Mantissa(w + p, |p|, t))
  {
    var s := w + ("." + p) + t;
    FractionSlices(w, p, t);
    DigitSpanConcat(w, "." + p + t);
    DigitSpanConcat(p, t);
    FractionSteps(s, |w|, |p|);
  }

  lemma FractionSlices(w: string, p: string, t: string)
    ensures var s := w + ("." + p) + t;
            && s == w + ("." + p + t)
            && s[..|w|] == w && s[|w|] == '.'
            && s[|w| + 1..] == p + t
            && s[|w| + 1..|w| + 1 + |p|] == p
            && s[|w| + 1 + |p|..] == t
  {
  }

  /** `LexMantissa` from the lengths of its integer and fraction digits. */
  lemma FractionSteps(s: string, i: nat, f: nat)
    requires i == DigitSpan(s) && i < |s| && s[i] == '.'
    requires f == DigitSpan(s[i + 1..]) && (i > 0 || f > 0)
    ensures LexMantissa(s) == Some(Mantissa(s[..i] + s[i + 1..i + 1 + f], f, s[i + 1 + f..]))
  {
  }

  /** The mantissa of a rendered integer without a fraction. */
  lemma MantissaWithoutFraction(w: string, t: string)
    requires |w| > 0 && AllDigits(w)
    requires NumberEnds(t)
    ensures LexMantissa(w + t) == Some(Mantissa(w, 0, t))
  {
    var s := w + t;
    DigitSpanConcat(w, t);
    assert s[..|w|] == w;
    assert s[|w|..] == t;
  }

  /** The mantissa of a rendered integral part followed by an optional fraction. */
  lemma MantissaOfText(q: nat, k: nat, r: nat, t: string)
    requires r < Pow10(k)
    requires NumberEnds(t)
    ensures var frac := if k > 0 then "." + PadDigits(r, k) else "";
            LexMantissa(NatText(q) + frac + t)
              == Some(Mantissa(NatText(q) + PadDigits(r, k), k, t))
  {
    if k > 0 {
      MantissaWithFraction(NatText(q), PadDigits(r, k), t);
    } else {
      MantissaNoFraction(NatText(q), PadDigits(r, k), t);
    }
  }

  lemma MantissaNoFraction(w: string, p: string, t: string)
    requires |w| > 0 && AllDigits(w) && p == []
    requires NumberEnds(t)
    ensures LexMantissa(w + "" + t) == Some(Mantissa(w + p, 0, t))
  {
    MantissaWithoutFraction(w, t);
    AppendNil(w);
  }

  lemma LexUnsignedNoExponent(u: string, neg: bool, m: Mantissa)
    requires LexMantissa(u) == Some(m)
    requires LexExponent(m.rest) == NoExponent
    ensures var v: int := DigitsValue(m.digits);
            LexUnsigned(u, neg) == Done(Normalize(if neg then -v else v, m.fracLen), m.rest)
  {
  }

  lemma LexFloatSign(neg: bool, body: string)
    requires |body| > 0 && IsDigit(body[0])
    ensures LexFloat((if neg then "-" else "") + body) == LexUnsigned(body, neg)
  {
    var s := (if neg then "-" else "") + body;
    if neg {
      assert s[0] == '-';
      assert s[1..] == body;
    } else {
      assert s == body;
    }
  }

  /** Reading back a rendered number gives the same number and stops right after it. */
  lemma LexFloatRoundTrip(n: Num, t: string)
    requires Canonical(n)
    requires NumberEnds(t)
    ensures LexFloat(NumText(n) + t) == Done(n, t)
  {
    var a := Abs(n.mant);
    var p := Pow10(n.scale);
    DivMod(a, p);
    var q := a / p;
    var r := a % p;
    var w := NatText(q);
    var frac := if n.scale > 0 then "." + PadDigits(r, n.scale) else "";
    var sign := if n.mant < 0 then "-" else "";
    assert NumText(n) == sign + w + frac;
    var body := w + frac + t;
    Regroup(sign, w, frac, t);
    MantissaOfText(q, n.scale, r, t);
    var m := Mantissa(w + PadDigits(r, n.scale), n.scale, t);
    assert body[0] == w[0];
    MantissaValue(q, n.scale, r);
    assert DigitsValue(m.digits) == a;
    LexUnsignedNoExponent(body, n.mant < 0, m);
    LexFloatSign(n.mant < 0, body);
    StripCanonical(n);
  }

  lemma MantissaValue(q: nat, k: nat, r: nat)
    requires r < Pow10(k)
    ensures AllDigits(NatText(q) + PadDigits(r, k))
    ensures DigitsValue(NatText(q) + PadDigits(r, k)) == q * Pow10(k) + r
  {
    DigitsValueConcat(NatText(q), PadDigits(r, k));
  }

  lemma ParseF32RoundTrip(n: Num)
    requires Canonical(n)
    ensures ParseF32(NumText(n)) == Ok(n)
  {
    LexFloatRoundTrip(n, "");
    assert NumText(n) + "" == NumText(n);
  }

  /** `s.trim().parse::<f32>().unwrap()`: a text that is not a float aborts. */
  function ParseF32Trimmed(s: string): (r: Result<Num>)
    ensures !r.Err?
    ensures r.Ok? <==> ParseF32(StrTrim(s)).Ok?
    ensures r.Ok? ==> r.value == ParseF32(StrTrim(s)).value && Canonical(r.value)
  {
    match ParseF32(StrTrim(s))
    case Ok(n) => Ok(n)
    case _ => Panic
  }

  /** A rendered number has no surrounding whitespace. */
  lemma NumTextTrimmed(n: Num)
    ensures StrTrim(NumText(n)) == NumText(n)
  {
    NumTextEdges(n);
    StrTrimNoop(NumText(n));
  }

  lemma ParseF32TrimmedRoundTrip(n: Num)
    requires Canonical(n)
    ensures ParseF32Trimmed(NumText(n)) == Ok(n)
  {
    NumTextTrimmed(n);
    ParseF32RoundTrip(n);
  }

  lemma ParseU32RoundTrip(v: nat)
    requires v < U32Limit
    ensures ParseU32(NatText(v)) == Ok(v)
  {
    var d := NatText(v);
    DigitSpanConcat(d, "");
    assert d + "" == d;
    assert d[..|d|] == d;
  }

  /** Digits worth 2^32 or more are refused rather than wrapped. */
  lemma ParseU32Overflow(v: nat)
    requires v >= U32Limit
    ensures ParseU32(NatText(v)).Err?
  {
    var d := NatText(v);
    assert IsDigit(d[0]);
    assert Unsigned(d) == d;
  }
}
