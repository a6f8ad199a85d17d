/**
 * The model of the crate's `f32` values: an exact decimal `mant / 10^scale`.
 *
 * Every number the crate reads is a decimal literal, so a finite decimal holds it
 * exactly; the IEEE rounding of `f32` is not modelled. `NumText` plays the role of
 * Rust's `Display` for `f32`: integral values print without a fractional part
 * ("10", not "10.0") and no exponent notation is used.
 */
module Decimal {
  import opened Text

  function Pow10(k: nat): (r: nat)
    ensures r >= 1
  {
    if k == 0 then 1 else 10 * Pow10(k - 1)
  }

  /** The number `mant / 10^scale`. */
  datatype Num = Num(mant: int, scale: nat)

  /** No trailing zero in the fraction: each value has exactly one canonical `Num`. */
  predicate Canonical(n: Num) {
    n.scale == 0 || n.mant % 10 != 0
  }

  /** The integral value `i`, as the literals `0_f32`, `1_f32`, `4_f32` of the source. */
  function FromInt(i: int): Num {
    Num(i, 0)
  }

  /** `n < i` */
  predicate LessThanInt(n: Num, i: int) {
    n.mant < i * Pow10(n.scale)
  }

  /** `n > i` */
  predicate GreaterThanInt(n: Num, i: int) {
    n.mant > i * Pow10(n.scale)
  }

  predicate AllDigits(s: string) {
    forall i :: 0 <= i < |s| ==> IsDigit(s[i])
  }

  function DigitChar(d: nat): (c: char)
    requires d < 10
    ensures IsDigit(c)
  {
    ('0' as int + d) as char
  }

  function DigitValue(c: char): (d: nat)
    requires IsDigit(c)
    ensures d < 10
  {
    c as int - '0' as int
  }

  /** The value of a string of decimal digits, read most significant first. */
  function DigitsValue(s: string): nat
    requires AllDigits(s)
  {
    if |s| == 0 then 0 else 10 * DigitsValue(s[..|s| - 1]) + DigitValue(s[|s| - 1])
  }

  lemma {:induction false} DigitsValueConcat(a: string, b: string)
    requires AllDigits(a) && AllDigits(b)
    ensures AllDigits(a + b)
    ensures DigitsValue(a + b) == DigitsValue(a) * Pow10(|b|) + DigitsValue(b)
    decreases |b|
  {
    if |b| > 0 {
      var b' := b[..|b| - 1];
      var d := DigitValue(b[|b| - 1]);
      assert (a + b)[..|a + b| - 1] == a + b';
      assert (a + b)[|a + b| - 1] == b[|b| - 1];
      DigitsValueConcat(a, b');
      assert DigitsValue(a + b) == 10 * DigitsValue(a + b') + d;
      assert DigitsValue(b) == 10 * DigitsValue(b') + d;
      ShiftDigit(DigitsValue(a), Pow10(|b'|), DigitsValue(b'), d);
    } else {
      assert a + b == a;
    }
  }

  lemma ShiftDigit(x: nat, p: nat, y: nat, d: nat)
    ensures 10 * (x * p + y) + d == x * (10 * p) + (10 * y + d)
  {
  }

  /** The decimal digits of `n` without leading zeros ("0" for zero). */
  function NatText(n: nat): (r: string)
    ensures |r| > 0 && AllDigits(r)
    ensures DigitsValue(r) == n
  {
    var init := if n < 10 then [] else NatText(n / 10);
    SnocDigit(init, n % 10);
    assert n == 10 * (n / 10) + n % 10;
    init + [DigitChar(n % 10)]
  }

  /** One more digit at the end multiplies the value by ten and adds the digit. */
  lemma SnocDigit(init: string, d: nat)
    requires AllDigits(init) && d < 10
    ensures AllDigits(init + [DigitChar(d)])
    ensures DigitsValue(init + [DigitChar(d)]) == 10 * DigitsValue(init) + d
  {
    var r := init + [DigitChar(d)];
    assert r[..|r| - 1] == init;
  }

  /** Exactly `k` decimal digits of `n`, zero-padded on the left. */
  function PadDigits(n: nat, k: nat): (r: string)
    requires n < Pow10(k)
    ensures |r| == k && AllDigits(r)
    ensures DigitsValue(r) == n
  {
    if k == 0 then []
    else
      var init := PadDigits(n / 10, k - 1);
      SnocDigit(init, n % 10);
      assert n == 10 * (n / 10) + n % 10;
      init + [DigitChar(n % 10)]
  }

  function Abs(i: int): nat {
    if i < 0 then -i else i
  }

  lemma DivMod(a: nat, p: nat)
    requires p > 0
    ensures a / p >= 0 && 0 <= a % p < p
    ensures a == (a / p) * p + a % p
  {
  }

  /** Rust's `Display` for `f32`, on the decimal model. */
  function NumText(n: Num): string {
    var a := Abs(n.mant);
    var p := Pow10(n.scale);
    DivMod(a, p);
    (if n.mant < 0 then "-" else "")
    + NatText(a / p)
    + (if n.scale > 0 then "." + PadDigits(a % p, n.scale) else "")
  }

  /** Text after a rendered number does not change that it starts with no whitespace. */
  lemma NumTextLead(n: Num, t: string)
    ensures |NumText(n) + t| > 0 && (NumText(n) + t)[0] == NumText(n)[0]
    ensures !IsMultispace((NumText(n) + t)[0])
  {
    NumTextHead(n);
    NumberCharNotWhitespace(NumText(n)[0]);
    HeadOf(NumText(n), t);
  }

  /** A rendered number neither starts nor ends with whitespace. */
  lemma NumTextEdges(n: Num)
    ensures |NumText(n)| > 0 && !IsWhitespace(NumText(n)[0])
    ensures !IsWhitespace(NumText(n)[|NumText(n)| - 1])
  {
    NumTextHead(n);
    NumTextLast(n);
    NumberCharNotWhitespace(NumText(n)[0]);
    NumberCharNotWhitespace(NumText(n)[|NumText(n)| - 1]);
  }

  /** A whole non-negative number is written as its decimal digits alone. */
  lemma NumTextWhole(n: nat)
    ensures NumText(FromInt(n)) == NatText(n)
  {
    var m := FromInt(n);
    assert Abs(m.mant) == n && Pow10(m.scale) == 1;
    WholeParts(n, NatText(n), NumText(m));
  }

  lemma WholeParts(n: nat, digits: string, text: string)
    requires text == "" + NatText(n / 1) + ""
    requires digits == NatText(n)
    ensures text == digits
  {
    AppendEmpty("", NatText(n / 1));
    AppendNil(NatText(n / 1));
  }

  /** A number below a hundred has at most two digits. */
  lemma NatTextTwoDigits(a: nat, b: nat)
    requires 0 < a < 10 && b < 10
    ensures NatText(10 * a + b) == [DigitChar(a), DigitChar(b)]
  {
    var n := 10 * a + b;
    DivTen(a, b);
    NatTextStep(n);
    NatTextSmall(a);
  }

  lemma DivTen(a: nat, b: nat)
    requires b < 10
    ensures (10 * a + b) / 10 == a && (10 * a + b) % 10 == b
  {
  }

  lemma NatTextStep(n: nat)
    requires n >= 10
    ensures NatText(n) == NatText(n / 10) + [DigitChar(n % 10)]
  {
  }

  lemma NatTextSmall(d: nat)
    requires d < 10
    ensures NatText(d) == [DigitChar(d)]
  {
    AppendEmpty([], [DigitChar(d)]);
  }

  /** A rendered number starts with a minus sign or a digit. */
  lemma NumTextHead(n: Num)
    ensures |NumText(n)| > 0
    ensures NumText(n)[0] == '-' || IsDigit(NumText(n)[0])
  {
    var a := Abs(n.mant);
    DivMod(a, Pow10(n.scale));
    var w := NatText(a / Pow10(n.scale));
    var frac := if n.scale > 0 then "." + PadDigits(a % Pow10(n.scale), n.scale) else "";
    if n.mant < 0 {
      assert NumText(n) == "-" + w + frac;
    } else {
      assert NumText(n) == w + frac;
      assert NumText(n)[0] == w[0];
    }
  }

  /** A rendered number ends with a digit. */
  lemma NumTextLast(n: Num)
    ensures |NumText(n)| > 0 && IsDigit(NumText(n)[|NumText(n)| - 1])
  {
    var a := Abs(n.mant);
    DivMod(a, Pow10(n.scale));
    var sign := if n.mant < 0 then "-" else "";
    var w := NatText(a / Pow10(n.scale));
    if n.scale > 0 {
      var p := PadDigits(a % Pow10(n.scale), n.scale);
      assert NumText(n) == sign + w + ("." + p);
      assert NumText(n)[|NumText(n)| - 1] == p[|p| - 1];
    } else {
      assert NumText(n) == sign + w + "";
      assert NumText(n)[|NumText(n)| - 1] == w[|w| - 1];
    }
  }

  /** A rendered number holds only a minus sign, digits and a decimal point. */
  lemma NumTextChars(n: Num)
    ensures forall i :: 0 <= i < |NumText(n)| ==>
              NumText(n)[i] == '-' || NumText(n)[i] == '.' || IsDigit(NumText(n)[i])
  {
    var a := Abs(n.mant);
    DivMod(a, Pow10(n.scale));
    var sign := if n.mant < 0 then "-" else "";
    var w := NatText(a / Pow10(n.scale));
    var frac := if n.scale > 0 then "." + PadDigits(a % Pow10(n.scale), n.scale) else "";
    assert NumText(n) == sign + w + frac;
  }

  /** Drops trailing fractional zeros without changing the value. */
  function Strip(m: int, s: nat): (r: Num)
    ensures Canonical(r) && r.scale <= s
    ensures r.mant * Pow10(s - r.scale) == m
    decreases s
  {
    if s > 0 && m % 10 == 0 then
      var r := Strip(m / 10, s - 1);
      assert Pow10(s - r.scale) == 10 * Pow10(s - 1 - r.scale);
      assert r.mant * Pow10(s - r.scale) == 10 * (r.mant * Pow10(s - 1 - r.scale));
      r
    else
      Num(m, s)
  }

  /** The canonical `Num` of value `m * 10^(-e)`. */
  function Normalize(m: int, e: int): (r: Num)
    ensures Canonical(r)
  {
    if e >= 0 then Strip(m, e) else Num(m * Pow10(-e), 0)
  }

  lemma StripCanonical(n: Num)
    requires Canonical(n)
    ensures Strip(n.mant, n.scale) == n
  {
  }
}
