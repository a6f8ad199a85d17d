/**
 * `Svg` (`src/lib.rs`): the document. An optional XML declaration, the `<svg …>`
 * tag with its attributes, the supported children, and `</svg>`.
 *
 * Reading never recovers from a malformed tag: every `unwrap` of the source is a
 * `Panic` here. The two recoverable errors are attribute text that
 * `parse_properties` does not consume completely, and text after `</svg>`.
 */
module SvgDocument {
  import opened Wrappers
  import opened Text
  import opened Decimal
  import opened Float
  import opened Parser
  import opened Attributes
  import opened Value
  import opened Encode
  import opened Header
  import opened ShapeAttributes
  import opened Children

  /** `view_box: (u32, u32, u32, u32)`: the origin, then the width and height. */
  datatype ViewBox = ViewBox(minX: nat, minY: nat, width: nat, height: nat)

  datatype Svg = Svg(
    header: Option<Header>,
    x: Option<Num>,
    y: Option<Num>,
    height: Auto<Num>,
    width: Auto<Num>,
    viewBox: Option<ViewBox>,
    fill: string,
    xmlns: string,
    children: seq<Child>)

  const PropsError: string := "Invalid svg tag props!"
  const TagError: string := "Invalid svg tag: "
  const DefaultFill: string := "none"
  const DefaultXmlns: string := "http://www.w3.org/2000/svg"

  // ------------------------------------------------------------ viewBox

  predicate InU32(b: ViewBox) {
    b.minX < U32Limit && b.minY < U32Limit && b.width < U32Limit && b.height < U32Limit
  }

  /**
   * The `viewBox` closure: the first four whitespace-separated tokens, each read
   * as a `u32`. Fewer than four tokens, or a token that is not a `u32`, aborts;
   * tokens after the fourth are ignored.
   */
  function ViewBoxFromStr(s: string): (r: Result<ViewBox>)
    ensures !r.Err?
    ensures var toks := SplitWhitespace(s);
            r.Ok? <==> |toks| >= 4 && ParseU32(toks[0]).Ok? && ParseU32(toks[1]).Ok?
                       && ParseU32(toks[2]).Ok? && ParseU32(toks[3]).Ok?
    ensures var toks := SplitWhitespace(s);
            r.Ok? ==> && ParseU32(toks[0]) == Ok(r.value.minX) && ParseU32(toks[1]) == Ok(r.value.minY)
                      && ParseU32(toks[2]) == Ok(r.value.width) && ParseU32(toks[3]) == Ok(r.value.height)
    ensures r.Ok? ==> InU32(r.value)
  {
    var toks := SplitWhitespace(s);
    if |toks| < 4 then Panic
    else
      match (ParseU32(toks[0]), ParseU32(toks[1]), ParseU32(toks[2]), ParseU32(toks[3]))
      case (Ok(a), Ok(b), Ok(c), Ok(d)) => Ok(ViewBox(a, b, c, d))
      case _ => Panic
  }

  function ViewBoxTokensOf(b: ViewBox): seq<string> {
    [NatText(b.minX), NatText(b.minY), NatText(b.width), NatText(b.height)]
  }

  /** The `viewBox` value as `Display` writes it: `"{} {} {} {}"`. */
  function ViewBoxText(b: ViewBox): string {
    Join(ViewBoxTokensOf(b), " ")
  }

  // ------------------------------------------------------------ the svg tag

  /** nom's `take_until1(">")`: the non-empty text before the first `>`. */
  function TakeUntilGt(s: string): (r: Parsed<string>)
    ensures !r.Abort?
    ensures r.Done? ==> |r.value| > 0 && s == r.value + r.rest && |r.rest| > 0 && r.rest[0] == '>'
    ensures r.Done? ==> forall i :: 0 <= i < |r.value| ==> r.value[i] != '>'
    ensures r.NoMatch? <==> (s == [] || s[0] == '>' || forall i :: 0 <= i < |s| ==> s[i] != '>')
  {
    var n := GtSpan(s);
    if n == 0 || n == |s| then NoMatch
    else
      assert s == s[..n] + s[n..];
      Done(s[..n], s[n..])
  }

  /** Length of the leading run of characters other than `>`. */
  function GtSpan(s: string): (n: nat)
    ensures n <= |s|
    ensures forall i :: 0 <= i < n ==> s[i] != '>'
    ensures n == |s| || s[n] == '>'
  {
    if |s| > 0 && s[0] != '>' then 1 + GtSpan(s[1..]) else 0
  }

  /**
   * `delimited(preceded(trim(tag("<")), tag("svg")), trim(take_until1(">")), trim(tag(">")))`:
   * the attribute text of the opening tag, and the text after `>` and its whitespace.
   */
  function OpenTag(s: string): (r: Parsed<string>)
    ensures !r.Abort?
    ensures r.Done? ==> |r.value| > 0 && !IsMultispace(r.value[0])
    ensures r.Done? ==> forall i :: 0 <= i < |r.value| ==> r.value[i] != '>'
  {
    match Punct('<', s)
    case None => NoMatch
    case Some(u) =>
      if !StartsWith(u, "svg") then NoMatch
      else
        match TakeUntilGt(SkipMultispace(u[3..]))
        case Done(props, w) =>
          (match Punct('>', w)
           case Some(rest) => Done(props, rest)
           case None => NoMatch)
        case _ => NoMatch
  }

  /**
   * `delimited(preceded(trim(tag("<")), tag("/")), trim(tag("svg")), trim(tag(">")))`:
   * `<`, then `/` straight away, then `svg` and `>`, each with whitespace around it.
   */
  function CloseTag(s: string): (r: Option<string>)
    ensures r.Some? ==> |r.value| < |s| && (r.value == [] || !IsMultispace(r.value[0]))
  {
    match Punct('<', s)
    case None => None
    case Some(u) =>
      if |u| > 0 && u[0] == '/' then
        var v := SkipMultispace(u[1..]);
        if StartsWith(v, "svg") then Punct('>', v[3..]) else None
      else None
  }

  // ------------------------------------------------------------ attributes

  /** The `viewBox` entry of the attribute map: absent, or read by the closure. */
  function ViewBoxAttr(m: map<string, string>): (r: Result<Option<ViewBox>>)
    ensures !r.Err?
    ensures r == Ok(None) <==> "viewBox" !in m
    ensures r.Panic? <==> "viewBox" in m && ViewBoxFromStr(m["viewBox"]).Panic?
    ensures r.Ok? && r.value.Some? ==> "viewBox" in m && ViewBoxFromStr(m["viewBox"]) == Ok(r.value.value)
  {
    if "viewBox" in m then
      match ViewBoxFromStr(m["viewBox"])
      case Ok(b) => Ok(Some(b))
      case _ => Panic
    else Ok(None)
  }

  /**
   * The attribute part of `from_str`: `fill` and `xmlns` verbatim with their
   * defaults, `x` and `y` as numbers, `height` and `width` through `Auto`, and
   * `viewBox`. A value that does not parse aborts. The header and children are
   * filled in by the caller.
   */
  function TagAttrs(m: map<string, string>): (r: Result<Svg>)
    ensures !r.Err?
    ensures r.Panic? <==> || NumAttr(m, "x").Panic? || NumAttr(m, "y").Panic?
                          || GetFromMap(m, "height", ParseF32).Panic?
                          || GetFromMap(m, "width", ParseF32).Panic?
                          || ViewBoxAttr(m).Panic?
    ensures r.Ok? ==> && r.value.fill == (if "fill" in m then m["fill"] else DefaultFill)
                      && r.value.xmlns == (if "xmlns" in m then m["xmlns"] else DefaultXmlns)
    ensures r.Ok? ==> && ("x" !in m ==> r.value.x.None?) && ("y" !in m ==> r.value.y.None?)
                      && ("height" !in m ==> r.value.height == Auto(None))
                      && ("width" !in m ==> r.value.width == Auto(None))
                      && ("viewBox" !in m ==> r.value.viewBox.None?)
    ensures r.Ok? ==> r.value.header.None? && r.value.children == []
    ensures r.Ok? && r.value.viewBox.Some? ==> InU32(r.value.viewBox.value)
  {
    var fill := Lookup(m, "fill").GetOr(DefaultFill);
    var xmlns := Lookup(m, "xmlns").GetOr(DefaultXmlns);
    match (NumAttr(m, "x"), NumAttr(m, "y"), GetFromMap(m, "height", ParseF32),
           GetFromMap(m, "width", ParseF32), ViewBoxAttr(m))
    case (Ok(x), Ok(y), Ok(h), Ok(w), Ok(b)) => Ok(Svg(None, x, y, h, w, b, fill, xmlns, []))
    case _ => Panic
  }

  // ------------------------------------------------------------ from_str

  /** The message of a recoverable error. */
  predicate IsSvgError(msg: string) {
    msg == PropsError || (|msg| > |TagError| && StartsWith(msg, TagError))
  }

  /**
   * The attribute text of the opening tag: it must be read completely by
   * `parse_properties`, and then gives the attribute part of the document.
   */
  function PropsAttrs(props: string): (r: Result<Svg>)
    ensures r.Err? <==> ParseProperties(props).rest != []
    ensures r.Err? ==> r.msg == PropsError
    ensures !r.Err? ==> r == TagAttrs(ToMap(ParseProperties(props).value))
    ensures r.Ok? && r.value.viewBox.Some? ==> InU32(r.value.viewBox.value)
  {
    var kvs := ParseProperties(props);
    if kvs.rest != [] then Err(PropsError) else TagAttrs(ToMap(kvs.value))
  }

  /**
   * After the opening tag: the children, the closing tag, and nothing after it.
   * Text after `</svg>` is an error that quotes it.
   */
  function SvgContent(s: string, a: Svg): (r: Result<Svg>)
    ensures r.Ok? ==> r.value == a.(children := r.value.children)
    ensures r.Err? ==> |r.msg| > |TagError| && StartsWith(r.msg, TagError)
  {
    match ChildrenParser(s)
    case Done(cs, s3) =>
      (match CloseTag(s3)
       case Some(s4) =>
         if s4 == [] then Ok(a.(children := cs))
         else
           assert (TagError + s4)[..|TagError|] == TagError;
           Err(TagError + s4)
       case None => Panic)
    case _ => Panic
  }

  /** `from_str` after the header: the opening tag, its attributes, then the content. */
  function SvgBody(s: string, header: Option<Header>): (r: Result<Svg>)
    ensures r.Ok? ==> r.value.header == header
    ensures r.Err? ==> IsSvgError(r.msg)
    ensures r.Ok? && r.value.viewBox.Some? ==> InU32(r.value.viewBox.value)
    ensures OpenTag(s).NoMatch? ==> r.Panic?
  {
    match OpenTag(s)
    case Done(props, s2) =>
      (match PropsAttrs(props)
       case Ok(a) => SvgContent(s2, a.(header := header))
       case Err(msg) => Err(msg)
       case Panic => Panic)
    case _ => Panic
  }

  /**
   * `FromStr for Svg`. The declaration is optional: when it is not there the
   * input is read unchanged and the header is absent.
   */
  function SvgFromStr(s: string): (r: Result<Svg>)
    ensures r.Err? ==> IsSvgError(r.msg)
    ensures r.Ok? ==> (r.value.header.Some? <==> HeaderFromStr(s).Done?)
    ensures r.Ok? && r.value.header.Some? ==> r.value.header.value == HeaderFromStr(s).value
    ensures r.Ok? && r.value.viewBox.Some? ==> InU32(r.value.viewBox.value)
  {
    match HeaderFromStr(s)
    case Done(h, rest) => SvgBody(rest, Some(h))
    case _ => SvgBody(s, None)
  }

  // ------------------------------------------------------------ Display

  function NonEmpty(s: string): Option<string> {
    if s == [] then None else Some(s)
  }

  function NumOpt(n: Option<Num>): Option<string> {
    match n
    case None => None
    case Some(v) => Some(NumText(v))
  }

  function ViewBoxOpt(b: Option<ViewBox>): Option<string> {
    match b
    case None => None
    case Some(v) => Some(ViewBoxText(v))
  }

  /** The attributes of the opening tag, each with the value written when present. */
  function SvgSlots(v: Svg): seq<(string, Option<string>)> {
    [ ("fill", NonEmpty(v.fill)),
      ("xmlns", NonEmpty(v.xmlns)),
      ("x", NumOpt(v.x)),
      ("y", NumOpt(v.y)),
      ("viewBox", ViewBoxOpt(v.viewBox)),
      ("height", Some(AutoRender(v.height, NumText))),
      ("width", Some(AutoRender(v.width, NumText))) ]
  }

  /** The present slots, in order, as an attribute list. */
  function Present(slots: seq<(string, Option<string>)>): (r: seq<Pair>)
    ensures |r| <= |slots|
  {
    if slots == [] then []
    else
      (match slots[0].1
       case None => []
       case Some(v) => [(slots[0].0, v)])
      + Present(slots[1..])
  }

  function SvgPairs(v: Svg): seq<Pair> {
    Present(SvgSlots(v))
  }

  function HeaderPart(h: Option<Header>): string {
    match h
    case None => ""
    case Some(x) => HeaderText(x)
  }

  /** Everything after the declaration: the tag, the children, and `</svg>`. */
  function SvgTagText(v: Svg): string {
    "<svg " + RenderPairs(SvgPairs(v)) + ">" + ChildrenText(v.children) + "</svg>"
  }

  /** `Display for Svg`. */
  function SvgText(v: Svg): string {
    HeaderPart(v.header) + SvgTagText(v)
  }

  // ------------------------------------------------------------ reading back: viewBox

  lemma DigitsNoWhitespace(d: string)
    requires |d| > 0 && AllDigits(d)
    ensures NoWhitespace(d) && !IsWhitespace(d[0])
  {
  }

  /** Four runs of digits joined by spaces split back into the four runs. */
  lemma SplitFourDigits(p: string, q: string, w: string, h: string)
    requires |p| > 0 && |q| > 0 && |w| > 0 && |h| > 0
    requires AllDigits(p) && AllDigits(q) && AllDigits(w) && AllDigits(h)
    ensures SplitWhitespace(Join([p, q, w, h], " ")) == [p, q, w, h]
  {
    var toks := [p, q, w, h];
    DigitsNoWhitespace(p);
    DigitsNoWhitespace(q);
    DigitsNoWhitespace(w);
    DigitsNoWhitespace(h);
    assert forall i :: 0 <= i < |toks| ==> |toks[i]| > 0 && NoWhitespace(toks[i]);
    SplitJoin(toks);
  }

  /** A written `viewBox` splits into its four numbers. */
  lemma ViewBoxTokens(b: ViewBox)
    ensures SplitWhitespace(ViewBoxText(b)) == ViewBoxTokensOf(b)
  {
    SplitFourDigits(NatText(b.minX), NatText(b.minY), NatText(b.width), NatText(b.height));
  }

  /** The closure on text whose first four tokens are `u32` values. */
  lemma ViewBoxOfTokens(s: string, b: ViewBox)
    requires var toks := SplitWhitespace(s);
             |toks| >= 4 && ParseU32(toks[0]) == Ok(b.minX) && ParseU32(toks[1]) == Ok(b.minY)
             && ParseU32(toks[2]) == Ok(b.width) && ParseU32(toks[3]) == Ok(b.height)
    ensures ViewBoxFromStr(s) == Ok(b)
  {
  }

  /** A written `viewBox` of `u32` values reads back as itself. */
  lemma ViewBoxRoundTrip(b: ViewBox)
    requires InU32(b)
    ensures ViewBoxFromStr(ViewBoxText(b)) == Ok(b)
  {
    ViewBoxTokens(b);
    ParseU32RoundTrip(b.minX);
    ParseU32RoundTrip(b.minY);
    ParseU32RoundTrip(b.width);
    ParseU32RoundTrip(b.height);
    ViewBoxOfTokens(ViewBoxText(b), b);
  }

  // ------------------------------------------------------------ reading back: attributes

  predicate DistinctKeys(slots: seq<(string, Option<string>)>) {
    forall i, j :: 0 <= i < j < |slots| ==> slots[i].0 != slots[j].0
  }

  /** The list of one slot, as `Present` writes it. */
  lemma PresentOne(slot: (string, Option<string>), k: string)
    ensures LastValue(Present([slot]), k) == if slot.0 == k then slot.1 else None
  {
    assert [slot][1..] == [];
  }

  /** A key no slot has does not occur in the written list. */
  lemma {:induction false} PresentAbsent(slots: seq<(string, Option<string>)>, k: string)
    requires forall i :: 0 <= i < |slots| ==> slots[i].0 != k
    ensures LastValue(Present(slots), k).None?
  {
    if slots != [] {
      var head := Present([slots[0]]);
      assert Present(slots) == head + Present(slots[1..]) by {
        assert [slots[0]][1..] == [];
        AppendNil(head);
      }
      PresentAbsent(slots[1..], k);
      PresentOne(slots[0], k);
      LastValueConcat(head, Present(slots[1..]), k);
    }
  }

  /** Each slot's key finds exactly that slot's value, written or absent. */
  lemma {:induction false} PresentLookup(slots: seq<(string, Option<string>)>, i: nat)
    requires i < |slots| && DistinctKeys(slots)
    ensures LastValue(Present(slots), slots[i].0) == slots[i].1
  {
    var k := slots[i].0;
    var head := Present([slots[0]]);
    var tail := slots[1..];
    assert Present(slots) == head + Present(tail) by {
      assert [slots[0]][1..] == [];
      AppendNil(head);
    }
    PresentOne(slots[0], k);
    LastValueConcat(head, Present(tail), k);
    if i == 0 {
      assert forall j :: 0 <= j < |tail| ==> tail[j].0 != k by {
        forall j | 0 <= j < |tail|
          ensures tail[j].0 != k
        {
          assert tail[j] == slots[j + 1];
        }
      }
      PresentAbsent(tail, k);
    } else {
      assert tail[i - 1] == slots[i];
      assert DistinctKeys(tail) by {
        forall a, b | 0 <= a < b < |tail|
          ensures tail[a].0 != tail[b].0
        {
          assert tail[a] == slots[a + 1] && tail[b] == slots[b + 1];
        }
      }
      PresentLookup(tail, i - 1);
    }
  }

  predicate NoGt(s: string) {
    forall i :: 0 <= i < |s| ==> s[i] != '>'
  }

  /** Slots the tag can carry: keys `parse_properties` reads, values without `"` or `>`. */
  predicate WritableSlots(slots: seq<(string, Option<string>)>) {
    forall i :: 0 <= i < |slots| ==>
      IsKey(slots[i].0, '-') && (slots[i].1.Some? ==> SafeValue(slots[i].1.value))
  }

  predicate GtFreePairs(kvs: seq<Pair>) {
    forall i :: 0 <= i < |kvs| ==> NoGt(kvs[i].0) && NoGt(kvs[i].1)
  }

  lemma KeyNoGt(k: string)
    requires IsKey(k, '-')
    ensures NoGt(k)
  {
    forall i | 0 <= i < |k|
      ensures k[i] != '>'
    {
      assert IsKeyChar(k[i], '-');
    }
  }

  /** The written list of writable slots is valid and free of `>`. */
  lemma {:induction false} PresentWritable(slots: seq<(string, Option<string>)>)
    requires WritableSlots(slots)
    ensures ValidPairs(Present(slots)) && GtFreePairs(Present(slots))
  {
    if slots != [] {
      var head := Present([slots[0]]);
      assert Present(slots) == head + Present(slots[1..]) by {
        assert [slots[0]][1..] == [];
        AppendNil(head);
      }
      assert WritableSlots(slots[1..]) by {
        forall i | 0 <= i < |slots[1..]|
          ensures slots[1..][i] == slots[i + 1]
        {
        }
      }
      PresentWritable(slots[1..]);
      KeyNoGt(slots[0].0);
      assert [slots[0]][1..] == [];
      ValidPairsConcat(head, Present(slots[1..]));
    }
  }

  /** Written attributes without `>` make text without `>`. */
  lemma {:induction false} RenderPairsNoGt(kvs: seq<Pair>)
    requires GtFreePairs(kvs)
    ensures NoGt(RenderPairs(kvs))
  {
    if kvs != [] {
      RenderPairsNoGt(kvs[1..]);
      var r := RenderPairs(kvs);
      assert r == kvs[0].0 + "=\"" + kvs[0].1 + "\"" + " " + RenderPairs(kvs[1..]);
    }
  }

  /** A value the opening tag can carry: no `"` to end it and no `>` to end the tag. */
  predicate SafeValue(s: string) {
    QuoteFree(s) && NoGt(s)
  }

  lemma {:induction false} JoinSafe(parts: seq<string>)
    requires forall i :: 0 <= i < |parts| ==> SafeValue(parts[i])
    ensures SafeValue(Join(parts, " "))
    decreases |parts|
  {
    if |parts| > 1 {
      JoinSafe(parts[1..]);
      assert Join(parts, " ") == parts[0] + " " + Join(parts[1..], " ");
    }
  }

  lemma DigitsSafe(d: string)
    requires AllDigits(d)
    ensures SafeValue(d)
  {
  }

  lemma NumTextSafe(n: Num)
    ensures SafeValue(NumText(n))
  {
    NumTextChars(n);
  }

  lemma AutoTextSafe(a: Auto<Num>)
    ensures SafeValue(AutoRender(a, NumText))
  {
    if a.inner.Some? {
      NumTextSafe(a.inner.value);
    }
  }

  lemma ViewBoxTextSafe(b: ViewBox)
    ensures SafeValue(ViewBoxText(b))
  {
    var toks := ViewBoxTokensOf(b);
    DigitsSafe(NatText(b.minX));
    DigitsSafe(NatText(b.minY));
    DigitsSafe(NatText(b.width));
    DigitsSafe(NatText(b.height));
    FourSafe(NatText(b.minX), NatText(b.minY), NatText(b.width), NatText(b.height));
  }

  lemma FourSafe(p: string, q: string, w: string, h: string)
    requires SafeValue(p) && SafeValue(q) && SafeValue(w) && SafeValue(h)
    ensures SafeValue(Join([p, q, w, h], " "))
  {
    var toks := [p, q, w, h];
    assert forall i :: 0 <= i < |toks| ==> SafeValue(toks[i]);
    JoinSafe(toks);
  }

  /** The opening tag's attribute names. */
  lemma SvgKeys()
    ensures IsKey("fill", '-') && IsKey("xmlns", '-') && IsKey("x", '-') && IsKey("y", '-')
    ensures IsKey("viewBox", '-') && IsKey("height", '-') && IsKey("width", '-')
  {
  }

  /** The seven slots of the opening tag have seven different keys. */
  lemma SlotKeysDistinct(a: Option<string>, b: Option<string>, c: Option<string>, d: Option<string>,
                         e: Option<string>, f: Option<string>, g: Option<string>)
    ensures DistinctKeys([("fill", a), ("xmlns", b), ("x", c), ("y", d), ("viewBox", e), ("height", f), ("width", g)])
  {
  }

  /** The tag attributes a document can write so that they read back. */
  predicate WellFormedTag(v: Svg) {
    && SafeValue(v.fill) && SafeValue(v.xmlns)
    && (v.x.Some? ==> Canonical(v.x.value)) && (v.y.Some? ==> Canonical(v.y.value))
    && (v.height.inner.Some? ==> Canonical(v.height.inner.value))
    && (v.width.inner.Some? ==> Canonical(v.width.inner.value))
    && (v.viewBox.Some? ==> InU32(v.viewBox.value))
  }

  /** What `fill` and `xmlns` read back as: the written value, or the default when none was written. */
  function OrDefault(s: string, default: string): string {
    if s == [] then default else s
  }

  lemma SvgSlotsWritable(v: Svg)
    requires WellFormedTag(v)
    ensures WritableSlots(SvgSlots(v)) && DistinctKeys(SvgSlots(v))
  {
    SvgKeys();
    if v.x.Some? { NumTextSafe(v.x.value); }
    if v.y.Some? { NumTextSafe(v.y.value); }
    if v.viewBox.Some? { ViewBoxTextSafe(v.viewBox.value); }
    AutoTextSafe(v.height);
    AutoTextSafe(v.width);
    var slots := SvgSlots(v);
    SlotKeysDistinct(slots[0].1, slots[1].1, slots[2].1, slots[3].1, slots[4].1, slots[5].1, slots[6].1);
  }

  /** A written slot is in the map exactly when it had a value, holding that value. */
  predicate MapHasSlot(m: map<string, string>, k: string, o: Option<string>) {
    (k in m <==> o.Some?) && (k in m ==> m[k] == o.value)
  }

  lemma SlotInMap(slots: seq<(string, Option<string>)>, i: nat)
    requires i < |slots| && DistinctKeys(slots)
    ensures MapHasSlot(ToMap(Present(slots)), slots[i].0, slots[i].1)
  {
    PresentLookup(slots, i);
  }

  /** The map `from_str` builds from the written tag: each slot, as written. */
  lemma SvgAttrMap(v: Svg)
    requires WellFormedTag(v)
    ensures var m := ToMap(SvgPairs(v));
            && MapHasSlot(m, "fill", NonEmpty(v.fill)) && MapHasSlot(m, "xmlns", NonEmpty(v.xmlns))
            && MapHasSlot(m, "x", NumOpt(v.x)) && MapHasSlot(m, "y", NumOpt(v.y))
            && MapHasSlot(m, "viewBox", ViewBoxOpt(v.viewBox))
            && MapHasSlot(m, "height", Some(AutoRender(v.height, NumText)))
            && MapHasSlot(m, "width", Some(AutoRender(v.width, NumText)))
  {
    var slots := SvgSlots(v);
    SvgSlotsWritable(v);
    SlotInMap(slots, 0);
    SlotInMap(slots, 1);
    SlotInMap(slots, 2);
    SlotInMap(slots, 3);
    SlotInMap(slots, 4);
    SlotInMap(slots, 5);
    SlotInMap(slots, 6);
  }

  lemma TextSlot(m: map<string, string>, k: string, s: string, default: string)
    requires MapHasSlot(m, k, NonEmpty(s))
    ensures Lookup(m, k).GetOr(default) == OrDefault(s, default)
  {
  }

  lemma NumSlot(m: map<string, string>, k: string, o: Option<Num>)
    requires MapHasSlot(m, k, NumOpt(o))
    requires o.Some? ==> Canonical(o.value)
    ensures NumAttr(m, k) == Ok(o)
  {
    if o.Some? {
      ParseF32RoundTrip(o.value);
    }
  }

  lemma AutoSlot(m: map<string, string>, k: string, a: Auto<Num>)
    requires MapHasSlot(m, k, Some(AutoRender(a, NumText)))
    requires a.inner.Some? ==> Canonical(a.inner.value)
    ensures GetFromMap(m, k, ParseF32) == Ok(a)
  {
    NumAutoRoundTrip(a);
  }

  lemma ViewBoxSlot(m: map<string, string>, o: Option<ViewBox>)
    requires MapHasSlot(m, "viewBox", ViewBoxOpt(o))
    requires o.Some? ==> InU32(o.value)
    ensures ViewBoxAttr(m) == Ok(o)
  {
    if o.Some? {
      ViewBoxRoundTrip(o.value);
    }
  }

  /** `TagAttrs` once each field is known to read back. */
  lemma TagAttrsSteps(m: map<string, string>, v: Svg)
    requires NumAttr(m, "x") == Ok(v.x) && NumAttr(m, "y") == Ok(v.y)
    requires GetFromMap(m, "height", ParseF32) == Ok(v.height)
    requires GetFromMap(m, "width", ParseF32) == Ok(v.width)
    requires ViewBoxAttr(m) == Ok(v.viewBox)
    requires Lookup(m, "fill").GetOr(DefaultFill) == v.fill
    requires Lookup(m, "xmlns").GetOr(DefaultXmlns) == v.xmlns
    requires v.header.None? && v.children == []
    ensures TagAttrs(m) == Ok(v)
  {
  }

  /** The attributes of the document's own tag without header and children. */
  function TagReread(v: Svg): Svg {
    Svg(None, v.x, v.y, v.height, v.width, v.viewBox,
        OrDefault(v.fill, DefaultFill), OrDefault(v.xmlns, DefaultXmlns), [])
  }

  /**
   * The written attributes read back as the document's own, except that an
   * empty `fill` or `xmlns`, which is not written, comes back as its default.
   */
  lemma TagAttrsReadBack(v: Svg)
    requires WellFormedTag(v)
    ensures TagAttrs(ToMap(SvgPairs(v))) == Ok(TagReread(v))
  {
    var m := ToMap(SvgPairs(v));
    SvgAttrMap(v);
    TextSlot(m, "fill", v.fill, DefaultFill);
    TextSlot(m, "xmlns", v.xmlns, DefaultXmlns);
    NumSlot(m, "x", v.x);
    NumSlot(m, "y", v.y);
    AutoSlot(m, "height", v.height);
    AutoSlot(m, "width", v.width);
    ViewBoxSlot(m, v.viewBox);
    TagAttrsSteps(m, TagReread(v));
  }

  // ------------------------------------------------------------ reading back: the tag

  /** The written attribute list is never empty: `height` and `width` are always written. */
  lemma SvgPairsShape(v: Svg)
    requires WellFormedTag(v)
    ensures var ps := SvgPairs(v);
            && ValidPairs(ps) && GtFreePairs(ps) && |ps| > 0
            && |RenderPairs(ps)| > 0 && IsAlphanumeric(RenderPairs(ps)[0]) && NoGt(RenderPairs(ps))
  {
    var ps := SvgPairs(v);
    SvgSlotsWritable(v);
    PresentWritable(SvgSlots(v));
    SvgAttrMap(v);
    assert LastValue(ps, "width").Some?;
    RenderPairsNoGt(ps);
    assert ValidPair(ps[0]);
    assert RenderPairs(ps)[0] == ps[0].0[0];
  }

  lemma {:induction false} GtSpanOf(r: string, w: string)
    requires NoGt(r)
    ensures GtSpan(r + (">" + w)) == |r|
    decreases |r|
  {
    if r != [] {
      assert (r + (">" + w))[1..] == r[1..] + (">" + w);
      GtSpanOf(r[1..], w);
    } else {
      assert r + (">" + w) == ">" + w;
    }
  }

  lemma TakeUntilGtOf(r: string, w: string)
    requires |r| > 0 && NoGt(r)
    ensures TakeUntilGt(r + (">" + w)) == Done(r, ">" + w)
  {
    var s := r + (">" + w);
    GtSpanOf(r, w);
    assert s[..|r|] == r && s[|r|..] == ">" + w;
  }

  /** `trim(tag(c))` on the character itself. */
  lemma PunctOf(c: char, x: string)
    requires !IsMultispace(c)
    ensures Punct(c, [c] + x) == Some(SkipMultispace(x))
  {
    SkipMultispaceNoop([c] + x);
    assert ([c] + x)[1..] == x;
  }

  lemma OpenTagSteps(s: string, u: string, props: string, w: string, rest: string)
    requires Punct('<', s) == Some(u) && StartsWith(u, "svg")
    requires TakeUntilGt(SkipMultispace(u[3..])) == Done(props, w)
    requires Punct('>', w) == Some(rest)
    ensures OpenTag(s) == Done(props, rest)
  {
  }

  lemma OpenTagText(tail: string)
    ensures "<svg " + tail == ['<'] + ("svg" + (" " + tail))
    ensures StartsWith("svg" + (" " + tail), "svg") && ("svg" + (" " + tail))[3..] == " " + tail
    ensures ("svg" + (" " + tail))[0] == 's'
  {
  }

  /** The opening tag around attribute text without `>`. */
  lemma OpenTagOf(r: string, w: string)
    requires |r| > 0 && !IsMultispace(r[0]) && NoGt(r)
    ensures OpenTag("<svg " + (r + (">" + w))) == Done(r, SkipMultispace(w))
  {
    var tail := r + (">" + w);
    var u := "svg" + (" " + tail);
    OpenTagText(tail);
    PunctOf('<', u);
    SkipMultispaceNoop(u);
    SkipOneSpace(tail);
    SkipMultispaceNoop(tail);
    TakeUntilGtOf(r, w);
    CloseOf(w);
    OpenTagSteps("<svg " + tail, u, r, ">" + w, SkipMultispace(w));
  }

  lemma CloseTagSteps(s: string, u: string, rest: string)
    requires Punct('<', s) == Some(u) && |u| > 0 && u[0] == '/'
    requires var v := SkipMultispace(u[1..]); StartsWith(v, "svg") && Punct('>', v[3..]) == Some(rest)
    ensures CloseTag(s) == Some(rest)
  {
  }

  lemma CloseTagText(t: string)
    ensures "</svg>" + t == ['<'] + ("/svg>" + t)
    ensures ("/svg>" + t)[0] == '/' && ("/svg>" + t)[1..] == "svg>" + t
    ensures StartsWith("svg>" + t, "svg") && ("svg>" + t)[3..] == ">" + t && ("svg>" + t)[0] == 's'
  {
  }

  /** The closing tag, and the text after it with its leading whitespace dropped. */
  lemma CloseTagOf(t: string)
    ensures CloseTag("</svg>" + t) == Some(SkipMultispace(t))
  {
    CloseTagText(t);
    PunctOf('<', "/svg>" + t);
    SkipMultispaceNoop("/svg>" + t);
    SkipMultispaceNoop("svg>" + t);
    CloseOf(t);
    CloseTagSteps("</svg>" + t, "/svg>" + t, SkipMultispace(t));
  }

  /** The closing tag is not a child: no element name starts with `/`. */
  lemma CloseTagNotChild(t: string)
    ensures Single("</svg>" + t).NoMatch?
  {
    var s := "</svg>" + t;
    SkipMultispaceNoop(s);
    assert s[1..] == "/svg>" + t;
    SkipMultispaceNoop("/svg>" + t);
    var u := "/svg>" + t;
    forall i | 0 <= i < |ChildNames|
      ensures !StartsWith(u, ChildNames[i])
    {
      assert u[0] == '/';
      assert ChildNames[i][0] != '/';
    }
  }

  /** What may follow a written document: nothing, or text that is neither opened nor closed by whitespace. */
  predicate TailOk(t: string) {
    t == [] || (!IsMultispace(t[0]) && !IsWhitespace(t[|t| - 1]))
  }

  /** The closing tag and a tail are where `single` can start and end reading. */
  lemma CloseReadable(t: string)
    requires TailOk(t)
    ensures ReadableTail("</svg>" + t)
  {
    var close := "</svg>" + t;
    if t != [] {
      assert close[|close| - 1] == t[|t| - 1];
    }
  }

  /** The children and the closing tag, followed by a tail. */
  lemma SvgContentOf(cs: seq<Child>, t: string, a: Svg)
    requires forall i :: 0 <= i < |cs| ==> WellFormedChild(cs[i])
    requires TailOk(t)
    ensures SvgContent(ChildrenText(cs) + ("</svg>" + t), a)
              == if t == [] then Ok(a.(children := RereadAll(cs))) else Err(TagError + t)
  {
    var close := "</svg>" + t;
    CloseReadable(t);
    CloseTagNotChild(t);
    ChildrenReadBack(cs, close);
    CloseTagOf(t);
    SkipMultispaceNoop(t);
    SvgContentSteps(ChildrenText(cs) + close, a, RereadAll(cs), close, t);
  }

  lemma SvgContentSteps(s: string, a: Svg, cs: seq<Child>, s3: string, s4: string)
    requires ChildrenParser(s) == Done(cs, s3) && CloseTag(s3) == Some(s4)
    ensures SvgContent(s, a) == if s4 == [] then Ok(a.(children := cs)) else Err(TagError + s4)
  {
  }

  lemma TagTextSplit(r: string, c: string, t: string)
    ensures "<svg " + r + ">" + c + "</svg>" + t == "<svg " + (r + (">" + (c + ("</svg>" + t))))
  {
  }

  /** `from_str` after the header on a written tag, its children and a tail. */
  lemma SvgBodyReadBack(v: Svg, t: string, header: Option<Header>)
    requires WellFormedTag(v)
    requires forall i :: 0 <= i < |v.children| ==> WellFormedChild(v.children[i])
    requires TailOk(t)
    ensures SvgBody(SvgTagText(v) + t, header)
              == if t == [] then Ok(TagReread(v).(header := header, children := RereadAll(v.children)))
                 else Err(TagError + t)
  {
    var r := RenderPairs(SvgPairs(v));
    var c := ChildrenText(v.children);
    var rest := c + ("</svg>" + t);
    TagTextSplit(r, c, t);
    SvgPairsShape(v);
    OpenTagOf(r, rest);
    CloseReadable(t);
    ChildrenTextTail(v.children, "</svg>" + t);
    SkipMultispaceNoop(rest);
    AppendNil(r);
    ParsePropertiesRoundTrip(SvgPairs(v), "");
    TagAttrsReadBack(v);
    SvgContentOf(v.children, t, TagReread(v).(header := header));
  }

  // ------------------------------------------------------------ reading back: the document

  predicate WellFormedHeader(h: Header) {
    QuoteFree(VersionText(h)) && QuoteFree(EncodingText(EncodingOf(h))) && WellFormedEncoding(EncodingOf(h))
  }

  /** A document whose text reads back. */
  predicate WellFormedSvg(v: Svg) {
    && WellFormedTag(v)
    && (v.header.Some? ==> WellFormedHeader(v.header.value))
    && forall i :: 0 <= i < |v.children| ==> WellFormedChild(v.children[i])
  }

  /** A written declaration reads back with both attributes present. */
  function HeaderReread(h: Option<Header>): Option<Header> {
    match h
    case None => None
    case Some(x) => Some(Header(Some(VersionText(x)), Some(EncodingOf(x))))
  }

  /**
   * What a written document reads back as: the declaration with both
   * attributes, the default for an empty `fill` or `xmlns`, and each child as it
   * reads back.
   */
  function SvgReread(v: Svg): Svg {
    TagReread(v).(header := HeaderReread(v.header), children := RereadAll(v.children))
  }

  /** Where the written tag and a tail start and end. */
  lemma TagTextShape(v: Svg, t: string)
    requires TailOk(t)
    ensures var s := SvgTagText(v) + t;
            |s| > 5 && s[0] == '<' && s[1] == 's' && !IsWhitespace(s[|s| - 1])
  {
    var s := SvgTagText(v) + t;
    var pre := "<svg " + RenderPairs(SvgPairs(v)) + ">" + ChildrenText(v.children);
    assert SvgTagText(v) == pre + "</svg>";
    assert s[0] == pre[0] && s[1] == pre[1];
    if t == [] {
      assert s[|s| - 1] == '>';
    } else {
      assert s[|s| - 1] == t[|t| - 1];
    }
  }

  /** Text that starts with `<s` has no declaration. */
  lemma HeaderAbsent(s: string)
    requires |s| > 1 && s[0] == '<' && s[1] == 's' && !IsWhitespace(s[|s| - 1])
    ensures HeaderFromStr(s).NoMatch?
  {
    StrTrimNoop(s);
    assert "<?xml"[1] == '?';
  }

  lemma TrimStartMatchesNoop(s: string, p: string)
    requires |p| > 0 && !StartsWith(s, p)
    ensures TrimStartMatches(s, p) == s
  {
  }

  /** A written declaration in front of text that starts with `<` and ends in no whitespace. */
  lemma HeaderPresent(h: Header, s: string)
    requires WellFormedHeader(h)
    requires |s| > 0 && s[0] == '<' && !IsWhitespace(s[|s| - 1])
    ensures HeaderFromStr(HeaderText(h) + s) == Done(HeaderReread(Some(h)).value, s)
  {
    HeaderRoundTrip(h, s);
    TrimEndNoop(s);
    assert "?>"[0] == '?';
    StartsWithHead(s, "?>");
    TrimStartMatchesNoop(s, "?>");
  }

  /** Text without a declaration is read by `SvgBody` as it is. */
  lemma WithoutHeader(s: string, res: Result<Svg>)
    requires |s| > 1 && s[0] == '<' && s[1] == 's' && !IsWhitespace(s[|s| - 1])
    requires SvgBody(s, None) == res
    ensures SvgFromStr(s) == res
  {
    HeaderAbsent(s);
  }

  /** Text after a written declaration is read by `SvgBody` with the declaration read back. */
  lemma WithHeader(h: Header, s: string, res: Result<Svg>)
    requires WellFormedHeader(h)
    requires |s| > 0 && s[0] == '<' && !IsWhitespace(s[|s| - 1])
    requires SvgBody(s, HeaderReread(Some(h))) == res
    ensures SvgFromStr(HeaderText(h) + s) == res
  {
    HeaderPresent(h, s);
  }

  /**
   * Reading a written document gives `SvgReread` of it. Text after `</svg>` is
   * the error that quotes it; whitespace after the text counts only when the
   * declaration is absent, since reading the declaration trims the rest.
   */
  lemma SvgReadBack(v: Svg, t: string)
    requires WellFormedSvg(v) && TailOk(t)
    ensures SvgFromStr(SvgText(v) + t) == if t == [] then Ok(SvgReread(v)) else Err(TagError + t)
  {
    var s := SvgTagText(v) + t;
    var res: Result<Svg> := if t == [] then Ok(SvgReread(v)) else Err(TagError + t);
    TagTextShape(v, t);
    SvgBodyReadBack(v, t, HeaderReread(v.header));
    SvgTextParts(v, t);
    if v.header.None? {
      WithoutHeader(s, res);
    } else {
      WithHeader(v.header.value, s, res);
    }
  }

  lemma SvgTextParts(v: Svg, t: string)
    ensures v.header.None? ==> SvgText(v) + t == SvgTagText(v) + t
    ensures v.header.Some? ==> SvgText(v) + t == HeaderText(v.header.value) + (SvgTagText(v) + t)
  {
    if v.header.None? {
      assert HeaderPart(v.header) == "";
      AppendEmpty(HeaderPart(v.header), SvgTagText(v));
    } else {
      Assoc(HeaderText(v.header.value), SvgTagText(v), t);
    }
  }

  lemma {:induction false} RereadAllIdempotent(cs: seq<Child>)
    ensures RereadAll(RereadAll(cs)) == RereadAll(cs)
  {
    if cs != [] {
      RereadIdempotent(cs[0]);
      RereadAllIdempotent(cs[1..]);
      assert RereadAll(cs)[1..] == RereadAll(cs[1..]);
    }
  }

  /** Reading back is stable: a document already read back reads back as itself. */
  lemma SvgRereadIdempotent(v: Svg)
    ensures SvgReread(SvgReread(v)) == SvgReread(v)
  {
    RereadAllIdempotent(v.children);
  }

  // ------------------------------------------------------------ behaviour on malformed text

  lemma OpenTagEmpty(s: string, u: string)
    requires Punct('<', s) == Some(u) && StartsWith(u, "svg")
    requires TakeUntilGt(SkipMultispace(u[3..])).NoMatch?
    ensures OpenTag(s).NoMatch?
  {
  }

  lemma PropsRejectedSteps(s: string, props: string, w: string, h: Option<Header>)
    requires OpenTag(s) == Done(props, w) && ParseProperties(props).rest != []
    ensures SvgBody(s, h) == Err(PropsError)
  {
  }

  /**
   * The attribute text is taken up to the first `>` and must not be empty, so a
   * bare `<svg>` tag aborts instead of taking the defaults.
   */
  lemma BareTagAborts(t: string)
    requires t == [] || !IsWhitespace(t[|t| - 1])
    ensures SvgFromStr("<svg>" + t).Panic?
  {
    var s := "<svg>" + t;
    BareOpenTag(t);
    BareNoHeader(t);
    NoHeaderBody(s);
  }

  lemma BareNoHeader(t: string)
    requires t == [] || !IsWhitespace(t[|t| - 1])
    ensures HeaderFromStr("<svg>" + t).NoMatch?
  {
    var s := "<svg>" + t;
    assert s[|s| - 1] == if t == [] then '>' else t[|t| - 1];
    HeaderAbsent(s);
  }

  lemma NoHeaderBody(s: string)
    requires HeaderFromStr(s).NoMatch?
    ensures SvgFromStr(s) == SvgBody(s, None)
  {
  }

  /** `<svg>` has no attribute text for `take_until1` to take. */
  lemma BareOpenTag(t: string)
    ensures OpenTag("<svg>" + t).NoMatch?
  {
    var s := "<svg>" + t;
    var u := "svg" + (">" + t);
    assert s == ['<'] + u;
    PunctOf('<', u);
    SkipMultispaceNoop(u);
    assert u[..3] == "svg" && u[3..] == ">" + t;
    SkipMultispaceNoop(">" + t);
    OpenTagEmpty(s, u);
  }

  /**
   * Attribute text that `parse_properties` does not read to the end is the
   * recoverable error for the tag's attributes.
   */
  lemma UnreadPropsRejected(props: string, w: string)
    requires |props| > 0 && !IsMultispace(props[0]) && NoGt(props)
    requires ParseProperties(props).rest != []
    requires w == [] || !IsWhitespace(w[|w| - 1])
    ensures SvgFromStr("<svg " + (props + (">" + w))) == Err(PropsError)
  {
    var s := "<svg " + (props + (">" + w));
    PropsTagShape(props, w);
    OpenTagOf(props, w);
    PropsRejectedSteps(s, props, SkipMultispace(w), None);
    WithoutHeader(s, Err(PropsError));
  }

  lemma PropsTagShape(props: string, w: string)
    requires w == [] || !IsWhitespace(w[|w| - 1])
    ensures var s := "<svg " + (props + (">" + w));
            |s| > 1 && s[0] == '<' && s[1] == 's' && !IsWhitespace(s[|s| - 1])
  {
    var tail := props + (">" + w);
    var s := "<svg " + tail;
    assert s[|s| - 1] == tail[|tail| - 1];
    assert tail[|tail| - 1] == if w == [] then '>' else w[|w| - 1];
  }
}
