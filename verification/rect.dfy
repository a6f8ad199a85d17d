/**
 * `Rect` (`src/children/rect.rs`): a `<rect>` element with position `x,y`, size
 * `width,height` and corner radii `rx,ry`, each an optional `f32` that renders as
 * 0 when absent, followed by the common attributes.
 *
 * `x` and `y` are also common keys, so `CommonKVs::from_str` claims them: they end
 * up in the common value and never in the others map, and the rectangle's own `x`
 * and `y` fields are never set by `from_str`. `Display` writes the own fields
 * first and then the common ones, so a rectangle whose common value holds a
 * position is written with `x` (or `y`) twice, and reading it back keeps the later,
 * common one.
 */
module RectElement {
  import opened Wrappers
  import opened Text
  import opened Decimal
  import opened Float
  import opened Parser
  import opened Attributes
  import opened Common
  import opened ShapeAttributes
  import opened LineCapValue
  import opened LineJoinValue
  import opened DashArrayValue
  import opened DashOffsetValue
  import opened OpacityValue
  import opened MiterLimitValue

  datatype Rect = Rect(common: CommonKVs, x: Option<Num>, y: Option<Num>, width: Option<Num>,
                       height: Option<Num>, rx: Option<Num>, ry: Option<Num>)

  /** `Default` */
  const EmptyRect := Rect(EmptyCommon, None, None, None, None, None, None)

  /**
   * `Rect::from_str`: the attributes after `<rect`. With no other attributes the
   * six fields are absent; otherwise each is looked up in the others map and
   * parsed, and a value that is not a float aborts.
   */
  function RectFromStr(s: string): (r: Parsed<Rect>)
    ensures !r.NoMatch?
    ensures r.Done? ==> |r.rest| <= |s|
  {
    match CommonFromStr(StrTrim(s))
    case Done((common, kvs), rest) =>
      if kvs.None? then Done(Rect(common, None, None, None, None, None, None), rest)
      else
        var m := kvs.value;
        (match (NumAttr(m, "x"), NumAttr(m, "y"), NumAttr(m, "width"), NumAttr(m, "height"),
                NumAttr(m, "rx"), NumAttr(m, "ry"))
         case (Ok(x), Ok(y), Ok(w), Ok(h), Ok(rx), Ok(ry)) => Done(Rect(common, x, y, w, h, rx, ry), rest)
         case _ => Abort)
    case _ => Abort
  }

  /**
   * The reference reading: the position is never set, and each of the other four
   * fields is the last value of its attribute, parsed.
   */
  function RectOf(c: CommonKVs, kvs: seq<Pair>, rest: string): Parsed<Rect> {
    match (LastNum(kvs, "width"), LastNum(kvs, "height"), LastNum(kvs, "rx"), LastNum(kvs, "ry"))
    case (Ok(w), Ok(h), Ok(rx), Ok(ry)) => Done(Rect(c, None, None, w, h, rx, ry), rest)
    case _ => Abort
  }

  lemma RectFromStrOf(s: string, c: CommonKVs, kvs: Option<map<string, string>>, rest: string)
    requires CommonFromStr(StrTrim(s)) == Done((c, kvs), rest)
    ensures RectFromStr(s)
              == match (NumField(kvs, "x"), NumField(kvs, "y"), NumField(kvs, "width"),
                        NumField(kvs, "height"), NumField(kvs, "rx"), NumField(kvs, "ry"))
                 case (Ok(x), Ok(y), Ok(w), Ok(h), Ok(rx), Ok(ry)) => Done(Rect(c, x, y, w, h, rx, ry), rest)
                 case _ => Abort
  {
  }

  lemma PositionKeys()
    ensures IsCommonKey("x") && IsCommonKey("y")
  {
    assert CommonKeys[0] == "x" && CommonKeys[1] == "y";
  }

  /**
   * `from_str` leaves the position absent, reads each of `width`, `height`, `rx`,
   * `ry` as the last value of that attribute, and aborts when one of those is
   * not a float or the common attributes do not read.
   */
  lemma RectFromStrSpec(s: string)
    ensures RectFromStr(s)
              == match CommonFromStr(StrTrim(s))
                 case Done((c, _), rest) => RectOf(c, AttrList(s), rest)
                 case _ => Abort
  {
    var q := CommonFromStr(StrTrim(s));
    if q.Done? {
      RectFromStrOf(s, q.value.0, q.value.1, q.rest);
      PositionKeys();
      CommonKeyNotOther(s, "x");
      CommonKeyNotOther(s, "y");
      OwnKeys();
      NumFieldIsLast(s, "width");
      NumFieldIsLast(s, "height");
      NumFieldIsLast(s, "rx");
      NumFieldIsLast(s, "ry");
    }
  }

  /** Whatever the text, a rectangle that reads has no position of its own. */
  lemma RectPositionUnread(s: string)
    ensures RectFromStr(s).Done? ==> RectFromStr(s).value.x.None? && RectFromStr(s).value.y.None?
  {
    var q := CommonFromStr(StrTrim(s));
    if q.Done? {
      RectFromStrOf(s, q.value.0, q.value.1, q.rest);
      PositionKeys();
      CommonKeyNotOther(s, "x");
      CommonKeyNotOther(s, "y");
    }
  }

  /** The position pairs that `Display` writes ahead of the size. */
  function PositionPairs(r: Rect): seq<Pair> {
    [NumPair("x", r.x), NumPair("y", r.y)]
  }

  function SizePairs(r: Rect): seq<Pair> {
    [NumPair("width", r.width), NumPair("height", r.height), NumPair("rx", r.rx), NumPair("ry", r.ry)]
  }

  /** The attribute text between `<rect` and `/>`. */
  function RectBody(r: Rect): string {
    " " + RenderPairs(PositionPairs(r) + SizePairs(r) + CommonPairs(r.common)) + " "
  }

  /**
   * `Display`: `<rect x="X" y="Y" width="W" height="H" rx="RX" ry="RY" COMMON />`,
   * with 0 for absent values.
   */
  function RectText(r: Rect): string {
    "<rect" + RectBody(r) + "/>"
  }

  predicate WellFormedRect(r: Rect) {
    WellFormedCommon(r.common) && CanonicalOpt(r.x) && CanonicalOpt(r.y) && CanonicalOpt(r.width)
    && CanonicalOpt(r.height) && CanonicalOpt(r.rx) && CanonicalOpt(r.ry)
  }

  /** The common value a written rectangle reads back as: its position moves into it. */
  function Placed(r: Rect): CommonKVs {
    r.common.(x := Some(r.common.x.GetOr(OrZero(r.x))), y := Some(r.common.y.GetOr(OrZero(r.y))))
  }

  /** The written size attributes are distinct, unrecognised, and read back. */
  lemma SizePairsFacts(r: Rect)
    requires WellFormedRect(r)
    ensures var own := SizePairs(r);
            |own| > 0 && OwnPairs(own) && ValidPairs(own)
            && forall i, j :: 0 <= i < j < |own| ==> own[i].0 != own[j].0
  {
    var own := SizePairs(r);
    OwnKeys();
    OwnKeysValid();
    NumPairReadsBack("width", r.width);
    NumPairReadsBack("height", r.height);
    NumPairReadsBack("rx", r.rx);
    NumPairReadsBack("ry", r.ry);
    FourOwnPairs(own[0], own[1], own[2], own[3]);
  }

  /** A common key other than the position occurs neither in the position nor in the size pairs. */
  lemma BeforeCommonLacks(r: Rect, k: string)
    requires OwnPairs(SizePairs(r))
    requires IsCommonKey(k) && k != "x" && k != "y"
    ensures var a := PositionPairs(r) + SizePairs(r);
            forall i :: 0 <= i < |a| ==> a[i].0 != k
  {
    var a := PositionPairs(r) + SizePairs(r);
    forall i | 0 <= i < |a|
      ensures a[i].0 != k
    {
      if i >= 2 {
        assert a[i] == SizePairs(r)[i - 2];
      }
    }
  }

  /** Where the last value of each position key in the written pairs comes from. */
  lemma PositionLast(r: Rect, cp: seq<Pair>)
    requires OwnPairs(SizePairs(r))
    ensures var ps := PositionPairs(r) + SizePairs(r) + cp;
            && LastValue(ps, "x") == (if LastValue(cp, "x").Some? then LastValue(cp, "x") else Some(NumText(OrZero(r.x))))
            && LastValue(ps, "y") == (if LastValue(cp, "y").Some? then LastValue(cp, "y") else Some(NumText(OrZero(r.y))))
  {
    var pre := PositionPairs(r);
    var own := SizePairs(r);
    PositionKeys();
    LastValueConcat(pre + own, cp, "x");
    LastValueConcat(pre + own, cp, "y");
    LastValueConcat(pre, own, "x");
    LastValueConcat(pre, own, "y");
    LastValueSpec(own, "x");
    LastValueSpec(own, "y");
    assert pre[..1] == [pre[0]];
  }

  /** Each written pair's value parses as its key's type. */
  lemma RectPairsParse(r: Rect)
    requires WellFormedRect(r)
    requires OwnPairs(SizePairs(r))
    ensures AllParse(PositionPairs(r) + SizePairs(r) + CommonPairs(r.common))
  {
    var pre := PositionPairs(r);
    CommonPairsValid(r.common);
    PositionParses("x", r.x);
    PositionParses("y", r.y);
    AllParseTwo(pre[0], pre[1]);
    OwnAllParse(SizePairs(r));
    AllParseConcat(pre, SizePairs(r));
    AllParseConcat(pre + SizePairs(r), CommonPairs(r.common));
  }

  /** The written position and the common pairs after it read as the placed common value. */
  lemma PlacedFields(r: Rect)
    requires WellFormedRect(r)
    requires OwnPairs(SizePairs(r))
    ensures var ps := PositionPairs(r) + SizePairs(r) + CommonPairs(r.common);
            && Field(ps, "x", ParseF32) == Placed(r).x
            && Field(ps, "y", ParseF32) == Placed(r).y
  {
    var c := r.common;
    var cp := CommonPairs(c);
    var ps := PositionPairs(r) + SizePairs(r) + cp;
    PositionLast(r, cp);
    PlainFieldsReadBack(c);
    PositionTexts(c);
    NumPairReadsBack("x", r.x);
    NumPairReadsBack("y", r.y);
    PlacedField(ps, cp, "x", r.x, c.x);
    PlacedField(ps, cp, "y", r.y, c.y);
  }

  /** The common pairs hold the common position as its text. */
  lemma PositionTexts(c: CommonKVs)
    ensures LastValue(CommonPairs(c), "x") == c.x.Map(NumText)
    ensures LastValue(CommonPairs(c), "y") == c.y.Map(NumText)
  {
    CommonPairsLast(c, 0);
    CommonPairsLast(c, 1);
    assert CommonKeys[0] == "x" && CommonKeys[1] == "y";
  }

  /** A common coordinate wins over the written position; without one, the position is read. */
  lemma PlacedField(ps: seq<Pair>, cp: seq<Pair>, k: string, pos: Option<Num>, field: Option<Num>)
    requires LastValue(cp, k) == field.Map(NumText)
    requires Field(cp, k, ParseF32) == field
    requires LastValue(ps, k) == if LastValue(cp, k).Some? then LastValue(cp, k) else Some(NumText(OrZero(pos)))
    requires ParseF32(NumText(OrZero(pos))) == Ok(OrZero(pos))
    ensures Field(ps, k, ParseF32) == Some(field.GetOr(OrZero(pos)))
  {
  }

  /** The pairs ahead of the common ones leave every other common field as the common pairs set it. */
  lemma UnplacedFields(r: Rect)
    requires WellFormedRect(r)
    requires OwnPairs(SizePairs(r))
    ensures var cp := CommonPairs(r.common);
            var ps := PositionPairs(r) + SizePairs(r) + cp;
            && LastValue(ps, "fill") == LastValue(cp, "fill")
            && LastValue(ps, "stroke") == LastValue(cp, "stroke")
            && LastValue(ps, "stroke-width") == LastValue(cp, "stroke-width")
            && LastValue(ps, "stroke-linecap") == LastValue(cp, "stroke-linecap")
            && LastValue(ps, "stroke-linejoin") == LastValue(cp, "stroke-linejoin")
            && LastValue(ps, "stroke-dasharray") == LastValue(cp, "stroke-dasharray")
            && LastValue(ps, "stroke-dashoffset") == LastValue(cp, "stroke-dashoffset")
            && LastValue(ps, "stroke-opacity") == LastValue(cp, "stroke-opacity")
            && LastValue(ps, "stroke-miterlimit") == LastValue(cp, "stroke-miterlimit")
  {
    var a := PositionPairs(r) + SizePairs(r);
    var cp := CommonPairs(r.common);
    BeforeCommonLacks(r, "fill");
    AbsentKeyLeaves(a, cp, "fill");
    BeforeCommonLacks(r, "stroke");
    AbsentKeyLeaves(a, cp, "stroke");
    BeforeCommonLacks(r, "stroke-width");
    AbsentKeyLeaves(a, cp, "stroke-width");
    BeforeCommonLacks(r, "stroke-linecap");
    AbsentKeyLeaves(a, cp, "stroke-linecap");
    BeforeCommonLacks(r, "stroke-linejoin");
    AbsentKeyLeaves(a, cp, "stroke-linejoin");
    BeforeCommonLacks(r, "stroke-dasharray");
    AbsentKeyLeaves(a, cp, "stroke-dasharray");
    BeforeCommonLacks(r, "stroke-dashoffset");
    AbsentKeyLeaves(a, cp, "stroke-dashoffset");
    BeforeCommonLacks(r, "stroke-opacity");
    AbsentKeyLeaves(a, cp, "stroke-opacity");
    BeforeCommonLacks(r, "stroke-miterlimit");
    AbsentKeyLeaves(a, cp, "stroke-miterlimit");
  }

  /** The written position is all recognised. */
  lemma PositionUnknowns(r: Rect)
    ensures Unknowns(PositionPairs(r)) == []
  {
    var pre := PositionPairs(r);
    PositionKeys();
    assert IsCommonKey(pre[0].0) && IsCommonKey(pre[1].0);
    UnknownsEmpty(pre);
  }

  /** Every common field other than the position reads back as the common value holds it. */
  lemma UnplacedReadBack(r: Rect)
    requires WellFormedRect(r)
    requires OwnPairs(SizePairs(r))
    ensures var c := r.common;
            var ps := PositionPairs(r) + SizePairs(r) + CommonPairs(c);
            && LastValue(ps, "fill") == c.fill
            && LastValue(ps, "stroke") == c.stroke
            && Field(ps, "stroke-width", ParseF32) == c.strokeWidth
            && Field(ps, "stroke-linecap", LineCapFromStr) == c.lineCap
            && Field(ps, "stroke-linejoin", LineJoinFromStr) == c.lineJoin
            && Field(ps, "stroke-dasharray", DashArrayFromStr) == c.dashArray
            && Field(ps, "stroke-dashoffset", DashOffsetFromStr) == c.dashOffset
            && Field(ps, "stroke-opacity", OpacityFromStr) == c.opacity
            && Field(ps, "stroke-miterlimit", MiterLimitFromStr) == c.miterLimit
  {
    UnplacedFields(r);
    PlainFieldsReadBack(r.common);
    StrokeFieldsReadBack(r.common);
    StrokeNumbersReadBack(r.common);
  }

  /** Only the size pairs reach the others map. */
  lemma RectOthers(r: Rect)
    requires WellFormedRect(r)
    requires |SizePairs(r)| > 0 && OwnPairs(SizePairs(r))
    ensures Others(PositionPairs(r) + SizePairs(r) + CommonPairs(r.common)) == Some(ToMap(SizePairs(r)))
  {
    var pre := PositionPairs(r);
    var own := SizePairs(r);
    var cp := CommonPairs(r.common);
    var ps := pre + own + cp;
    assert ps[2] == own[0];
    assert !IsCommonKey(ps[2].0);
    assert Unknowns(pre + own) == own by {
      UnknownsConcat(pre, own);
      PositionUnknowns(r);
      UnknownsOwn(own);
      assert [] + own == own;
    }
    assert Unknowns(ps) == own by {
      UnknownsConcat(pre + own, cp);
      CommonPairsValid(r.common);
      UnknownsEmpty(cp);
      AppendNil(own);
    }
  }

  /**
   * The loop over a written rectangle's pairs: the common value with the written
   * position moved in where it had none, and the size attributes as the others.
   */
  lemma RectFold(r: Rect)
    requires WellFormedRect(r)
    ensures CommonFold(PositionPairs(r) + SizePairs(r) + CommonPairs(r.common))
              == Ok(Acc(Placed(r), Some(ToMap(SizePairs(r)))))
  {
    var ps := PositionPairs(r) + SizePairs(r) + CommonPairs(r.common);
    SizePairsFacts(r);
    CommonFoldMatches(ps);
    RectPairsParse(r);
    PlacedFields(r);
    UnplacedReadBack(r);
    RectOthers(r);
  }

  /** The written pairs are all ones that `parse_property` reads back. */
  lemma RectPairsValid(r: Rect)
    requires WellFormedRect(r)
    ensures ValidPairs(PositionPairs(r) + SizePairs(r) + CommonPairs(r.common))
  {
    var pre := PositionPairs(r);
    assert IsKey("x", '-') && IsKey("y", '-');
    NumPairReadsBack("x", r.x);
    NumPairReadsBack("y", r.y);
    ValidPairsTwo(pre[0], pre[1]);
    SizePairsFacts(r);
    CommonPairsValid(r.common);
    ValidPairsConcat(pre, SizePairs(r));
    ValidPairsConcat(pre + SizePairs(r), CommonPairs(r.common));
  }

  /**
   * A written rectangle reads back with its size and radii present, absent ones
   * as 0, its own position absent, and the written position moved into the
   * common value wherever the common value had none.
   */
  lemma RectReadBack(r: Rect, t: string)
    requires WellFormedRect(r)
    requires |t| > 0 && !IsWhitespace(t[0]) && !IsAlphanumeric(t[0]) && !IsWhitespace(t[|t| - 1])
    ensures RectFromStr(RectBody(r) + t)
              == Done(Rect(Placed(r), None, None, Some(OrZero(r.width)), Some(OrZero(r.height)),
                           Some(OrZero(r.rx)), Some(OrZero(r.ry))), t)
  {
    var own := SizePairs(r);
    var ps := PositionPairs(r) + own + CommonPairs(r.common);
    var s := RectBody(r) + t;
    var m := ToMap(own);
    RectPairsValid(r);
    RectFold(r);
    BodyReadBack(ps, " ", t, Acc(Placed(r), Some(m)));
    RectFromStrOf(s, Placed(r), Some(m), t);
    SizePairsFacts(r);
    PositionKeys();
    OwnKeys();
    LastValueSpec(own, "x");
    LastValueSpec(own, "y");
    ToMapHas(own, 0);
    ToMapHas(own, 1);
    ToMapHas(own, 2);
    ToMapHas(own, 3);
    NumAttrOf(m, "width", r.width);
    NumAttrOf(m, "height", r.height);
    NumAttrOf(m, "rx", r.rx);
    NumAttrOf(m, "ry", r.ry);
  }
}
