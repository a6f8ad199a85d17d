/**
 * `Ellipse` (`src/children/ellipse.rs`): an `<ellipse>` element with centre
 * `cx,cy` (optional `f32`, 0 when absent) and radii `rx`, `ry` (`Auto<f32>`,
 * `auto` when absent), followed by the common attributes.
 */
module EllipseElement {
  import opened Wrappers
  import opened Text
  import opened Decimal
  import opened Float
  import opened Parser
  import opened Attributes
  import opened Value
  import opened Common
  import opened ShapeAttributes

  datatype Ellipse = Ellipse(common: CommonKVs, cx: Option<Num>, cy: Option<Num>, rx: Auto<Num>, ry: Auto<Num>)

  /** `Default` */
  const EmptyEllipse := Ellipse(EmptyCommon, None, None, Auto(None), Auto(None))

  /**
   * `Ellipse::from_str`: the attributes after `<ellipse`. With no other attributes
   * the centre is absent and both radii are `auto`; otherwise each is looked up,
   * and a value of the wrong form aborts.
   */
  function EllipseFromStr(s: string): (r: Parsed<Ellipse>)
    ensures !r.NoMatch?
    ensures r.Done? ==> |r.rest| <= |s|
  {
    match CommonFromStr(StrTrim(s))
    case Done((common, kvs), rest) =>
      if kvs.None? then Done(Ellipse(common, None, None, Auto(None), Auto(None)), rest)
      else
        var m := kvs.value;
        (match (NumAttr(m, "cx"), NumAttr(m, "cy"), GetFromMap(m, "rx", ParseF32), GetFromMap(m, "ry", ParseF32))
         case (Ok(cx), Ok(cy), Ok(rx), Ok(ry)) => Done(Ellipse(common, cx, cy, rx, ry), rest)
         case _ => Abort)
    case _ => Abort
  }

  /** The reference reading: each field is the last value of its attribute, parsed. */
  function EllipseOf(c: CommonKVs, kvs: seq<Pair>, rest: string): Parsed<Ellipse> {
    match (LastNum(kvs, "cx"), LastNum(kvs, "cy"), LastAuto(kvs, "rx"), LastAuto(kvs, "ry"))
    case (Ok(cx), Ok(cy), Ok(rx), Ok(ry)) => Done(Ellipse(c, cx, cy, rx, ry), rest)
    case _ => Abort
  }

  lemma EllipseFromStrOf(s: string, c: CommonKVs, kvs: Option<map<string, string>>, rest: string)
    requires CommonFromStr(StrTrim(s)) == Done((c, kvs), rest)
    ensures EllipseFromStr(s)
              == match (NumField(kvs, "cx"), NumField(kvs, "cy"), AutoField(kvs, "rx"), AutoField(kvs, "ry"))
                 case (Ok(cx), Ok(cy), Ok(rx), Ok(ry)) => Done(Ellipse(c, cx, cy, rx, ry), rest)
                 case _ => Abort
  {
  }

  /**
   * `from_str` reads `cx` and `cy` as floats and `rx` and `ry` as `Auto<f32>`, each
   * from the last occurrence of its attribute, and aborts when one of them has
   * the wrong form or the common attributes do not read.
   */
  lemma EllipseFromStrSpec(s: string)
    ensures EllipseFromStr(s)
              == match CommonFromStr(StrTrim(s))
                 case Done((c, _), rest) => EllipseOf(c, AttrList(s), rest)
                 case _ => Abort
  {
    var q := CommonFromStr(StrTrim(s));
    if q.Done? {
      EllipseFromStrOf(s, q.value.0, q.value.1, q.rest);
      OwnKeys();
      NumFieldIsLast(s, "cx");
      NumFieldIsLast(s, "cy");
      AutoFieldIsLast(s, "rx");
      AutoFieldIsLast(s, "ry");
    }
  }

  function EllipsePairs(e: Ellipse): seq<Pair> {
    [NumPair("cx", e.cx), NumPair("cy", e.cy), AutoPair("rx", e.rx), AutoPair("ry", e.ry)]
  }

  /** The attribute text between `<ellipse` and `/>`. */
  function EllipseBody(e: Ellipse): string {
    " " + RenderPairs(EllipsePairs(e) + CommonPairs(e.common)) + " "
  }

  /**
   * `Display`: `<ellipse cx="CX" cy="CY" rx="RX" ry="RY" COMMON />`, with 0 for an
   * absent centre coordinate and `auto` for an `auto` radius.
   */
  function EllipseText(e: Ellipse): string {
    "<ellipse" + EllipseBody(e) + "/>"
  }

  predicate WellFormedEllipse(e: Ellipse) {
    WellFormedCommon(e.common) && CanonicalOpt(e.cx) && CanonicalOpt(e.cy)
    && CanonicalAuto(e.rx) && CanonicalAuto(e.ry)
  }

  /** The written own attributes are distinct, unrecognised, and read back. */
  lemma EllipsePairsFacts(e: Ellipse)
    requires WellFormedEllipse(e)
    ensures var own := EllipsePairs(e);
            |own| > 0 && OwnPairs(own) && ValidPairs(own)
            && forall i, j :: 0 <= i < j < |own| ==> own[i].0 != own[j].0
  {
    var own := EllipsePairs(e);
    OwnKeys();
    OwnKeysValid();
    NumPairReadsBack("cx", e.cx);
    NumPairReadsBack("cy", e.cy);
    AutoPairReadsBack("rx", e.rx);
    AutoPairReadsBack("ry", e.ry);
    FourOwnPairs(own[0], own[1], own[2], own[3]);
  }

  /**
   * A written ellipse reads back with its common attributes and radii unchanged
   * and its centre coordinates present, absent ones as 0.
   */
  lemma EllipseReadBack(e: Ellipse, t: string)
    requires WellFormedEllipse(e)
    requires |t| > 0 && !IsWhitespace(t[0]) && !IsAlphanumeric(t[0]) && !IsWhitespace(t[|t| - 1])
    ensures EllipseFromStr(EllipseBody(e) + t)
              == Done(Ellipse(e.common, Some(OrZero(e.cx)), Some(OrZero(e.cy)), e.rx, e.ry), t)
  {
    var own := EllipsePairs(e);
    var s := EllipseBody(e) + t;
    EllipsePairsFacts(e);
    ShapeReadBack(own, e.common, " ", t);
    var m := ToMap(own);
    EllipseFromStrOf(s, e.common, Some(m), t);
    ToMapHas(own, 0);
    ToMapHas(own, 1);
    ToMapHas(own, 2);
    ToMapHas(own, 3);
    NumAttrOf(m, "cx", e.cx);
    NumAttrOf(m, "cy", e.cy);
    AutoAttrOf(m, "rx", e.rx);
    AutoAttrOf(m, "ry", e.ry);
  }
}
