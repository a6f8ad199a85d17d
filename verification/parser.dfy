/**
 * The attribute-level combinators of the crate (`src/parser.rs`): keys, quoted
 * strings, `key="value"` lists, the `trim` wrapper, two-number points and 0/1 flags.
 *
 * Each parser takes the input and returns the value with the unconsumed rest, or
 * `NoMatch` (nom's recoverable error). None of them can abort.
 */
module Parser {
  import opened Wrappers
  import opened Text
  import opened Decimal
  import opened Float

  // ----------------------------------------------------------------- keys

  /** A character `parse_normal` keeps after the first one: the split sign or an alphanumeric. */
  predicate IsKeyChar(c: char, sign: char) {
    c == sign || IsAlphanumeric(c)
  }

  /** What `parse_normal` recognises: an alphanumeric, then alphanumerics and `sign`s. */
  predicate IsKey(k: string, sign: char) {
    |k| > 0 && IsAlphanumeric(k[0]) && forall i :: 0 <= i < |k| ==> IsKeyChar(k[i], sign)
  }

  /** Length of the leading run of key characters */
  function KeySpan(s: string, sign: char): (n: nat)
    ensures n <= |s|
    ensures forall i :: 0 <= i < n ==> IsKeyChar(s[i], sign)
    ensures n == |s| || !IsKeyChar(s[n], sign)
  {
    if |s| > 0 && IsKeyChar(s[0], sign) then 1 + KeySpan(s[1..], sign) else 0
  }

  /**
   * `parse_normal`: an alphanumeric followed by the longest run of alphanumerics
   * and `sign`. `parse_value` and `parse_normal_key` are this parser with `sign == '-'`.
   */
  function ParseNormal(s: string, sign: char): (r: Parsed<string>)
    ensures !r.Abort?
    ensures r.Done? <==> |s| > 0 && IsAlphanumeric(s[0])
    ensures r.Done? ==> IsKey(r.value, sign) && s == r.value + r.rest
    ensures r.Done? ==> r.rest == [] || !IsKeyChar(r.rest[0], sign)
  {
    if |s| > 0 && IsAlphanumeric(s[0]) then
      var n := KeySpan(s, sign);
      assert s == s[..n] + s[n..];
      Done(s[..n], s[n..])
    else
      NoMatch
  }

  /** A key followed by a character that cannot continue it is read back exactly. */
  lemma {:induction false} KeySpanOf(k: string, t: string, sign: char)
    requires forall i :: 0 <= i < |k| ==> IsKeyChar(k[i], sign)
    requires t == [] || !IsKeyChar(t[0], sign)
    ensures KeySpan(k + t, sign) == |k|
    decreases |k|
  {
    if k != [] {
      assert (k + t)[0] == k[0];
      assert (k + t)[1..] == k[1..] + t;
      KeySpanOf(k[1..], t, sign);
    } else {
      assert k + t == t;
    }
  }

  lemma ParseNormalOf(k: string, t: string, sign: char)
    requires IsKey(k, sign)
    requires t == [] || !IsKeyChar(t[0], sign)
    ensures ParseNormal(k + t, sign) == Done(k, t)
  {
    KeySpanOf(k, t, sign);
    assert (k + t)[..|k|] == k;
    assert (k + t)[|k|..] == t;
  }

  // ------------------------------------------------------------ trim

  /**
   * nom's `delimited(multispace0, p, multispace0)`: `p` after leading whitespace,
   * with the whitespace that follows it dropped as well.
   */
  function Trim<T>(p: string -> Parsed<T>, s: string): (r: Parsed<T>)
    ensures var q := p(SkipMultispace(s));
            && r.Done? == q.Done? && r.Abort? == q.Abort?
            && (r.Done? ==> r.value == q.value && IsSuffix(r.rest, q.rest))
    ensures r.Done? ==> r.rest == [] || !IsMultispace(r.rest[0])
  {
    match p(SkipMultispace(s))
    case Done(v, rest) => Done(v, SkipMultispace(rest))
    case NoMatch => NoMatch
    case Abort => Abort
  }

  /** Whitespace in front of a trimmed parser makes no difference. */
  lemma TrimLeading<T>(p: string -> Parsed<T>, ws: string, s: string)
    requires AllMultispace(ws)
    ensures Trim(p, ws + s) == Trim(p, s)
  {
    SkipMultispaceConcat(ws, s);
  }

  /** What `Trim` leaves after `p` read `v` and left `rest`. */
  lemma TrimDone<T>(p: string -> Parsed<T>, s: string, v: T, rest: string)
    requires s == [] || !IsMultispace(s[0])
    requires p(s) == Done(v, rest)
    ensures Trim(p, s) == Done(v, SkipMultispace(rest))
  {
    SkipMultispaceNoop(s);
  }

  // ------------------------------------------------------- quoted strings

  /** Length of the leading run of characters other than `"` */
  function QuoteSpan(s: string): (n: nat)
    ensures n <= |s|
    ensures QuoteFree(s[..n])
    ensures n == |s| || s[n] == '"'
  {
    if |s| > 0 && s[0] != '"' then 1 + QuoteSpan(s[1..]) else 0
  }

  /**
   * `parse_string`: the text between an opening `"` and the next `"`, with no
   * escapes; it fails when the input does not open with a quote or never closes it.
   */
  function ParseString(s: string): (r: Parsed<string>)
    ensures !r.Abort?
    ensures r.Done? <==> |s| > 0 && s[0] == '"' && !QuoteFree(s[1..])
    ensures r.Done? ==> QuoteFree(r.value) && s == "\"" + r.value + "\"" + r.rest
  {
    if |s| > 0 && s[0] == '"' then
      var u := s[1..];
      var n := QuoteSpan(u);
      if n < |u| then
        assert s == "\"" + u[..n] + "\"" + u[n + 1..];
        Done(u[..n], u[n + 1..])
      else
        assert u[..n] == u;
        NoMatch
    else
      NoMatch
  }

  lemma {:induction false} QuoteSpanOf(v: string, t: string)
    requires QuoteFree(v)
    ensures QuoteSpan(v + "\"" + t) == |v|
    decreases |v|
  {
    if v != [] {
      assert (v + "\"" + t)[0] == v[0];
      assert (v + "\"" + t)[1..] == v[1..] + "\"" + t;
      QuoteSpanOf(v[1..], t);
    } else {
      assert v + "\"" + t == "\"" + t;
    }
  }

  lemma ParseStringOf(v: string, t: string)
    requires QuoteFree(v)
    ensures ParseString("\"" + v + "\"" + t) == Done(v, t)
  {
    var s := "\"" + v + "\"" + t;
    assert s[1..] == v + "\"" + t;
    QuoteSpanOf(v, t);
    assert (v + "\"" + t)[..|v|] == v;
    assert (v + "\"" + t)[|v| + 1..] == t;
  }

  // ------------------------------------------------------------ properties

  type Pair = (string, string)

  /** The text of one attribute, `key="value"`. */
  function PairText(k: string, v: string): string {
    k + "=\"" + v + "\""
  }

  /** A pair the renderer can write so that `parse_property` reads it back. */
  predicate ValidPair(kv: Pair) {
    IsKey(kv.0, '-') && QuoteFree(kv.1)
  }

  predicate ValidPairs(kvs: seq<Pair>) {
    forall i :: 0 <= i < |kvs| ==> ValidPair(kvs[i])
  }

  /** `parse_property`: a key, then `=` straight away, then a quoted string. */
  function ParseProperty(s: string): (r: Parsed<Pair>)
    ensures !r.Abort?
    ensures r.Done? ==> ValidPair(r.value) && s == PairText(r.value.0, r.value.1) + r.rest
    ensures s == [] || !IsAlphanumeric(s[0]) ==> r.NoMatch?
  {
    match ParseNormal(s, '-')
    case Done(k, rest) =>
      if |rest| > 0 && rest[0] == '=' then
        match ParseString(rest[1..])
        case Done(v, rest') =>
          PairTextSplit(s, k, rest, v, rest');
          Done((k, v), rest')
        case _ => NoMatch
      else
        NoMatch
    case _ => NoMatch
  }

  lemma PairTextSplit(s: string, k: string, rest: string, v: string, rest': string)
    requires s == k + rest && |rest| > 0 && rest[0] == '='
    requires rest[1..] == "\"" + v + "\"" + rest'
    ensures s == PairText(k, v) + rest'
  {
    assert rest == "=" + rest[1..];
  }

  lemma PairTextHead(k: string, v: string, t: string)
    requires |k| > 0
    ensures (PairText(k, v) + t)[0] == k[0]
  {
  }

  lemma ParsePropertyOf(k: string, v: string, t: string)
    requires IsKey(k, '-') && QuoteFree(v)
    ensures ParseProperty(PairText(k, v) + t) == Done((k, v), t)
  {
    var after := "=\"" + v + "\"" + t;
    assert PairText(k, v) + t == k + after;
    ParseNormalOf(k, after, '-');
    assert after[1..] == "\"" + v + "\"" + t;
    ParseStringOf(v, t);
  }

  /**
   * `parse_properties`, nom's `many0(trim(parse_property))`: reads pairs until the
   * next trimmed pair does not match. It never fails, and what it leaves is the
   * text at which the next pair was attempted, leading whitespace included.
   */
  function ParseProperties(s: string): (r: Parsed<seq<Pair>>)
    ensures r.Done? && IsSuffix(r.rest, s)
    ensures ValidPairs(r.value)
    ensures Trim(ParseProperty, r.rest).NoMatch?
    decreases |s|
  {
    match Trim(ParseProperty, s)
    case Done(kv, rest) =>
      TrimPropertyShrinks(s);
      var tail := ParseProperties(rest);
      SuffixTrans(tail.rest, rest, s);
      ValidPairsCons(kv, tail.value);
      Done([kv] + tail.value, tail.rest)
    case _ => Done([], s)
  }

  /** A trimmed pair consumes at least its key, and what it leaves ends the input. */
  lemma TrimPropertyShrinks(s: string)
    requires Trim(ParseProperty, s).Done?
    ensures var r := Trim(ParseProperty, s);
            ValidPair(r.value) && IsSuffix(r.rest, s) && |r.rest| < |s|
  {
    var u := SkipMultispace(s);
    var q := ParseProperty(u);
    assert |q.rest| < |u|;
    SuffixDrop(u, |u| - |q.rest|);
    SuffixTrans(q.rest, u, s);
    SuffixTrans(Trim(ParseProperty, s).rest, q.rest, s);
  }

  lemma ValidPairsCons(kv: Pair, kvs: seq<Pair>)
    requires ValidPair(kv) && ValidPairs(kvs)
    ensures ValidPairs([kv] + kvs)
  {
  }

  /** The attributes as the renderers write them: each `key="value"` followed by a space. */
  function RenderPairs(kvs: seq<Pair>): (r: string)
    ensures kvs != [] ==> |r| > 0 && r[0] == PairText(kvs[0].0, kvs[0].1)[0]
  {
    if kvs == [] then "" else PairText(kvs[0].0, kvs[0].1) + " " + RenderPairs(kvs[1..])
  }

  lemma {:induction false} RenderPairsConcat(a: seq<Pair>, b: seq<Pair>)
    ensures RenderPairs(a + b) == RenderPairs(a) + RenderPairs(b)
    decreases |a|
  {
    if a == [] {
      assert a + b == b;
    } else {
      assert (a + b)[0] == a[0];
      assert (a + b)[1..] == a[1..] + b;
      RenderPairsConcat(a[1..], b);
    }
  }

  /**
   * Reading rendered attributes gives back the same list in the same order. The
   * whitespace after the last pair is consumed with it; with no pairs at all
   * nothing is consumed.
   */
  lemma ParsePropertiesRoundTrip(kvs: seq<Pair>, t: string)
    requires ValidPairs(kvs)
    requires var u := SkipMultispace(t); u == [] || !IsAlphanumeric(u[0])
    ensures ParseProperties(RenderPairs(kvs) + t)
              == Done(kvs, if kvs == [] then t else SkipMultispace(t))
  {
    if kvs == [] {
      assert RenderPairs(kvs) + t == t;
      ParsePropertiesStops(t);
    } else {
      ParsePropertiesNonEmpty(kvs, t);
    }
  }

  lemma {:induction false} ParsePropertiesNonEmpty(kvs: seq<Pair>, t: string)
    requires |kvs| > 0 && ValidPairs(kvs)
    requires var u := SkipMultispace(t); u == [] || !IsAlphanumeric(u[0])
    ensures ParseProperties(RenderPairs(kvs) + t) == Done(kvs, SkipMultispace(t))
    decreases |kvs|
  {
    var k := kvs[0].0;
    var v := kvs[0].1;
    var tail := kvs[1..];
    var rt := RenderPairs(tail) + t;
    Regroup(PairText(k, v), " ", RenderPairs(tail), t);
    ValidPairsTail(kvs);
    SkipOneSpace(rt);
    if tail == [] {
      AppendEmpty(RenderPairs(tail), t);
      ParsePropertiesStep(k, v, " " + rt, SkipMultispace(t));
      SkipMultispaceIdem(t);
      ParsePropertiesStops(SkipMultispace(t));
    } else {
      RenderPairsHead(tail, t);
      SkipMultispaceNoop(rt);
      ParsePropertiesStep(k, v, " " + rt, rt);
      ParsePropertiesNonEmpty(tail, t);
    }
    ConsPair(kvs);
  }

  /**
   * One pair at the front: it is read, then the list goes on at `u`, the text
   * after the whitespace that follows the pair.
   */
  lemma ParsePropertiesStep(k: string, v: string, rt: string, u: string)
    requires IsKey(k, '-') && QuoteFree(v)
    requires u == SkipMultispace(rt)
    ensures ParseProperties(PairText(k, v) + rt)
              == Done([(k, v)] + ParseProperties(u).value, ParseProperties(u).rest)
  {
    var s := PairText(k, v) + rt;
    ParsePropertyOf(k, v, rt);
    PairTextHead(k, v, rt);
    TrimDone(ParseProperty, s, (k, v), rt);
  }

  /** A trimmed pair parser reads a rendered pair. */
  lemma TrimPropertyOf(k: string, v: string, rt: string)
    requires IsKey(k, '-') && QuoteFree(v)
    ensures Trim(ParseProperty, PairText(k, v) + rt).Done?
  {
    ParsePropertyOf(k, v, rt);
    PairTextHead(k, v, rt);
    TrimDone(ParseProperty, PairText(k, v) + rt, (k, v), rt);
  }

  /** Whitespace in front of a list that starts with a pair is skipped. */
  lemma ParsePropertiesLeading(ws: string, s: string)
    requires AllMultispace(ws)
    requires Trim(ParseProperty, s).Done?
    ensures ParseProperties(ws + s) == ParseProperties(s)
  {
    TrimLeading(ParseProperty, ws, s);
  }

  /** Rendered attributes start with the first key's first character. */
  lemma RenderPairsHead(kvs: seq<Pair>, t: string)
    requires |kvs| > 0 && IsKey(kvs[0].0, '-')
    ensures |RenderPairs(kvs) + t| > 0 && IsAlphanumeric((RenderPairs(kvs) + t)[0])
  {
    var k := kvs[0].0;
    var v := kvs[0].1;
    assert PairText(k, v)[0] == k[0];
  }

  lemma ValidPairsTail(kvs: seq<Pair>)
    requires |kvs| > 0 && ValidPairs(kvs)
    ensures ValidPair(kvs[0]) && ValidPairs(kvs[1..])
  {
  }

  lemma ConsPair(kvs: seq<Pair>)
    requires |kvs| > 0
    ensures [(kvs[0].0, kvs[0].1)] + kvs[1..] == kvs
  {
    ConsSplit(kvs);
  }

  /** `parse_properties` reads nothing where no key starts after the whitespace. */
  lemma ParsePropertiesStops(t: string)
    requires var u := SkipMultispace(t); u == [] || !IsAlphanumeric(u[0])
    ensures ParseProperties(t) == Done([], t)
  {
  }

  lemma SkipMultispaceIdem(s: string)
    ensures SkipMultispace(SkipMultispace(s)) == SkipMultispace(s)
  {
    SkipMultispaceNoop(SkipMultispace(s));
  }

  // ------------------------------------------------------- points and flags

  /** Length of the leading run of spaces and tabs (nom's `space1` when positive) */
  function SpaceSpan(s: string): (n: nat)
    ensures n <= |s|
    ensures n == |s| || !IsSpace(s[n])
  {
    if |s| > 0 && IsSpace(s[0]) then 1 + SpaceSpan(s[1..]) else 0
  }

  /** `separated_pair(float, alt((tag(","), space1)), float)` */
  function PointBody(s: string): (r: Parsed<(Num, Num)>)
    ensures !r.Abort?
    ensures r.Done? ==> IsSuffix(r.rest, s) && Canonical(r.value.0) && Canonical(r.value.1)
  {
    match LexFloat(s)
    case Done(x, r1) =>
      var n := SpaceSpan(r1);
      if |r1| > 0 && (r1[0] == ',' || n > 0) then
        var r2 := if r1[0] == ',' then r1[1..] else r1[n..];
        SuffixDrop(r1, |r1| - |r2|);
        SuffixTrans(r2, r1, s);
        match LexFloat(r2)
        case Done(y, r3) =>
          SuffixTrans(r3, r2, s);
          Done((x, y), r3)
        case _ => NoMatch
      else
        NoMatch
    case _ => NoMatch
  }

  /** `point`: two numbers separated by one comma or a run of spaces and tabs, trimmed. */
  function Point(s: string): (r: Parsed<(Num, Num)>)
    ensures !r.Abort?
    ensures r.Done? ==> IsSuffix(r.rest, s) && Canonical(r.value.0) && Canonical(r.value.1)
    ensures r.Done? ==> r.rest == [] || !IsMultispace(r.rest[0])
  {
    var r := Trim(PointBody, s);
    if r.Done? then
      SuffixTrans(PointBody(SkipMultispace(s)).rest, SkipMultispace(s), s);
      SuffixTrans(r.rest, PointBody(SkipMultispace(s)).rest, s);
      r
    else r
  }

  /** A separator the point parser accepts: one comma, or one or more spaces and tabs. */
  predicate PointSeparator(sep: string) {
    sep == "," || (|sep| > 0 && forall i :: 0 <= i < |sep| ==> IsSpace(sep[i]))
  }

  lemma {:induction false} SpaceSpanOf(sp: string, t: string)
    requires forall i :: 0 <= i < |sp| ==> IsSpace(sp[i])
    requires t == [] || !IsSpace(t[0])
    ensures SpaceSpan(sp + t) == |sp|
    decreases |sp|
  {
    if sp != [] {
      assert (sp + t)[0] == sp[0];
      assert (sp + t)[1..] == sp[1..] + t;
      SpaceSpanOf(sp[1..], t);
    } else {
      assert sp + t == t;
    }
  }

  /** The separator step of `PointBody`: it skips exactly `sep`. */
  lemma SeparatorOf(sep: string, u: string)
    requires PointSeparator(sep)
    requires |u| > 0 && !IsSpace(u[0])
    ensures var r1 := sep + u;
            && |r1| > 0 && (r1[0] == ',' || SpaceSpan(r1) > 0)
            && (if r1[0] == ',' then r1[1..] else r1[SpaceSpan(r1)..]) == u
  {
    var r1 := sep + u;
    if sep == "," {
      assert r1[1..] == u;
    } else {
      assert r1[0] == sep[0];
      SpaceSpanOf(sep, u);
      assert r1[|sep|..] == u;
    }
  }

  /** `PointBody` from the results of its three steps. */
  lemma PointBodySteps(s: string, x: Num, r1: string, u: string, y: Num, t: string)
    requires LexFloat(s) == Done(x, r1)
    requires |r1| > 0 && (r1[0] == ',' || SpaceSpan(r1) > 0)
    requires (if r1[0] == ',' then r1[1..] else r1[SpaceSpan(r1)..]) == u
    requires LexFloat(u) == Done(y, t)
    ensures PointBody(s) == Done((x, y), t)
  {
  }

  lemma PointBodyOf(x: Num, y: Num, sep: string, t: string)
    requires Canonical(x) && Canonical(y)
    requires PointSeparator(sep)
    requires NumberEnds(t)
    ensures PointBody(NumText(x) + sep + NumText(y) + t) == Done((x, y), t)
  {
    var u := NumText(y) + t;
    var s := NumText(x) + (sep + u);
    Regroup(NumText(x), sep, NumText(y), t);
    NumTextHead(y);
    NumTextLead(y, t);
    NumberCharNotSpace(u[0]);
    HeadOf(sep, u);
    LexFloatRoundTrip(x, sep + u);
    SeparatorOf(sep, u);
    LexFloatRoundTrip(y, t);
    PointBodySteps(s, x, sep + u, u, y, t);
  }

  /** Text that starts with a rendered number starts with no whitespace. */
  lemma PointTextHead(a: string, sep: string, b: string, t: string)
    requires |a| > 0 && (a[0] == '-' || IsDigit(a[0]))
    ensures |a + sep + b + t| > 0 && !IsMultispace((a + sep + b + t)[0])
  {
    HeadOf(a, sep);
    HeadOf(a + sep, b);
    HeadOf(a + sep + b, t);
    NumberCharNotWhitespace(a[0]);
  }

  /** Rendered coordinates are read back by `point`, with the whitespace after them. */
  lemma PointRoundTrip(x: Num, y: Num, sep: string, t: string)
    requires Canonical(x) && Canonical(y)
    requires PointSeparator(sep)
    requires NumberEnds(t)
    ensures Point(NumText(x) + sep + NumText(y) + t) == Done((x, y), SkipMultispace(t))
  {
    var s := NumText(x) + sep + NumText(y) + t;
    PointBodyOf(x, y, sep, t);
    NumTextHead(x);
    PointTextHead(NumText(x), sep, NumText(y), t);
    TrimDone(PointBody, s, (x, y), t);
  }

  /** `alt((tag("0"), tag("1")))` */
  function FlagChar(s: string): (r: Parsed<bool>)
    ensures !r.Abort?
    ensures r.Done? <==> |s| > 0 && (s[0] == '0' || s[0] == '1')
    ensures r.Done? ==> r.value == (s[0] == '1') && r.rest == s[1..]
  {
    if |s| > 0 && (s[0] == '0' || s[0] == '1') then Done(s[0] == '1', s[1..]) else NoMatch
  }

  /** `bool_flag`: a trimmed `0` or `1`, read as false or true. */
  function BoolFlag(s: string): (r: Parsed<bool>)
    ensures !r.Abort?
    ensures var u := SkipMultispace(s);
            r.Done? <==> |u| > 0 && (u[0] == '0' || u[0] == '1')
    ensures r.Done? ==> r.value == (SkipMultispace(s)[0] == '1')
    ensures r.Done? ==> r.rest == SkipMultispace(SkipMultispace(s)[1..])
  {
    Trim(FlagChar, s)
  }

  /** How a flag is written: `1` for true and `0` for false. */
  function FlagText(b: bool): (r: string)
    ensures |r| == 1 && (r[0] == '1') == b && (r[0] == '0') == !b
  {
    if b then "1" else "0"
  }

  lemma BoolFlagRoundTrip(b: bool, t: string)
    ensures BoolFlag(FlagText(b) + t) == Done(b, SkipMultispace(t))
  {
    var s := FlagText(b) + t;
    assert s[0] == FlagText(b)[0];
    assert s[1..] == t;
    assert FlagChar(s) == Done(b, t);
    TrimDone(FlagChar, s, b, t);
  }
}
