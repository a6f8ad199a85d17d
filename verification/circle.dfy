/**
 * `Circle` (`src/children/circle.rs`): a `<circle>` element with centre `cx,cy`
 * and radius `r`, each an optional `f32` that renders as 0 when absent.
 */
module CircleElement {
  import opened Wrappers
  import opened Text
  import opened Decimal
  import opened Float
  import opened Parser
  import opened Attributes
  import opened Common
  import opened ShapeAttributes

  datatype Circle = Circle(common: CommonKVs, cx: Option<Num>, cy: Option<Num>, r: Option<Num>)

  /** `Default` */
  const EmptyCircle := Circle(EmptyCommon, None, None, None)

  /**
   * `Circle::from_str`: the attributes after `<circle`. With no other attributes
   * the three fields are absent; otherwise each is looked up and parsed, and a
   * value that is not a float aborts.
   */
  function CircleFromStr(s: string): (r: Parsed<Circle>)
    ensures !r.NoMatch?
    ensures r.Done? ==> |r.rest| <= |s|
  {
    match CommonFromStr(StrTrim(s))
    case Done((common, kvs), rest) =>
      if kvs.None? then Done(Circle(common, None, None, None), rest)
      else
        (match (NumAttr(kvs.value, "cx"), NumAttr(kvs.value, "cy"), NumAttr(kvs.value, "r"))
         case (Ok(cx), Ok(cy), Ok(r)) => Done(Circle(common, cx, cy, r), rest)
         case _ => Abort)
    case _ => Abort
  }

  /** The reference reading: each field is the last value of its attribute, parsed. */
  function CircleOf(c: CommonKVs, kvs: seq<Pair>, rest: string): Parsed<Circle> {
    match (LastNum(kvs, "cx"), LastNum(kvs, "cy"), LastNum(kvs, "r"))
    case (Ok(cx), Ok(cy), Ok(r)) => Done(Circle(c, cx, cy, r), rest)
    case _ => Abort
  }

  lemma CircleFromStrOf(s: string, c: CommonKVs, kvs: Option<map<string, string>>, rest: string)
    requires CommonFromStr(StrTrim(s)) == Done((c, kvs), rest)
    ensures CircleFromStr(s)
              == match (NumField(kvs, "cx"), NumField(kvs, "cy"), NumField(kvs, "r"))
                 case (Ok(cx), Ok(cy), Ok(r)) => Done(Circle(c, cx, cy, r), rest)
                 case _ => Abort
  {
  }

  /**
   * `from_str` reads each of `cx`, `cy`, `r` as the last value of that attribute
   * (absent when it does not occur) and aborts when one of them is not a float
   * or the common attributes do not read.
   */
  lemma CircleFromStrSpec(s: string)
    ensures CircleFromStr(s)
              == match CommonFromStr(StrTrim(s))
                 case Done((c, _), rest) => CircleOf(c, AttrList(s), rest)
                 case _ => Abort
  {
    var q := CommonFromStr(StrTrim(s));
    if q.Done? {
      CircleFromStrOf(s, q.value.0, q.value.1, q.rest);
      OwnKeys();
      NumFieldIsLast(s, "cx");
      NumFieldIsLast(s, "cy");
      NumFieldIsLast(s, "r");
    }
  }

  function CirclePairs(c: Circle): seq<Pair> {
    [NumPair("cx", c.cx), NumPair("cy", c.cy), NumPair("r", c.r)]
  }

  /** The attribute text between `<circle` and `/>`. */
  function CircleBody(c: Circle): string {
    " " + RenderPairs(CirclePairs(c))
  }

  /**
   * `Display`: `<circle cx="CX" cy="CY" r="R" />`, with 0 for absent values and
   * no common attributes.
   */
  function CircleText(c: Circle): string {
    "<circle" + CircleBody(c) + "/>"
  }

  predicate WellFormedCircle(c: Circle) {
    CanonicalOpt(c.cx) && CanonicalOpt(c.cy) && CanonicalOpt(c.r)
  }

  /**
   * A written circle reads back with its three numbers, absent ones as 0, and
   * without its common attributes, which the renderer does not write.
   */
  lemma CircleReadBack(c: Circle, t: string)
    requires WellFormedCircle(c)
    requires |t| > 0 && !IsWhitespace(t[0]) && !IsAlphanumeric(t[0]) && !IsWhitespace(t[|t| - 1])
    ensures CircleFromStr(CircleBody(c) + t)
              == Done(Circle(EmptyCommon, Some(OrZero(c.cx)), Some(OrZero(c.cy)), Some(OrZero(c.r))), t)
  {
    var own := CirclePairs(c);
    var s := CircleBody(c) + t;
    OwnKeys();
    NumPairReadsBack("cx", c.cx);
    NumPairReadsBack("cy", c.cy);
    NumPairReadsBack("r", c.r);
    OwnKeysValid();
    EmptyCommonPairs();
    AppendNil(own);
    AppendNil(" " + RenderPairs(own));
    ThreeOwnPairs(own[0], own[1], own[2]);
    ShapeReadBack(own, EmptyCommon, "", t);
    var m := ToMap(own);
    CircleFromStrOf(s, EmptyCommon, Some(m), t);
    ToMapHas(own, 0);
    ToMapHas(own, 1);
    ToMapHas(own, 2);
    NumAttrOf(m, "cx", c.cx);
    NumAttrOf(m, "cy", c.cy);
    NumAttrOf(m, "r", c.r);
  }
}
