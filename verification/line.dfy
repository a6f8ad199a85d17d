/**
 * `Line` (`src/children/line.rs`): a `<line>` element from `x1,y1` to `x2,y2`,
 * each an optional `f32` that renders as 0 when absent, followed by the common
 * attributes.
 */
module LineElement {
  import opened Wrappers
  import opened Text
  import opened Decimal
  import opened Float
  import opened Parser
  import opened Attributes
  import opened Common
  import opened ShapeAttributes

  datatype Line = Line(common: CommonKVs, x1: Option<Num>, y1: Option<Num>, x2: Option<Num>, y2: Option<Num>)

  /** `Default` */
  const EmptyLine := Line(EmptyCommon, None, None, None, None)

  /**
   * `Line::from_str`: the attributes after `<line`. With no other attributes the
   * four coordinates are absent; otherwise each is looked up and parsed, and a
   * value that is not a float aborts.
   */
  function LineFromStr(s: string): (r: Parsed<Line>)
    ensures !r.NoMatch?
    ensures r.Done? ==> |r.rest| <= |s|
  {
    match CommonFromStr(StrTrim(s))
    case Done((common, kvs), rest) =>
      if kvs.None? then Done(Line(common, None, None, None, None), rest)
      else
        var m := kvs.value;
        (match (NumAttr(m, "x1"), NumAttr(m, "y1"), NumAttr(m, "x2"), NumAttr(m, "y2"))
         case (Ok(x1), Ok(y1), Ok(x2), Ok(y2)) => Done(Line(common, x1, y1, x2, y2), rest)
         case _ => Abort)
    case _ => Abort
  }

  /** The reference reading: each coordinate is the last value of its attribute, parsed. */
  function LineOf(c: CommonKVs, kvs: seq<Pair>, rest: string): Parsed<Line> {
    match (LastNum(kvs, "x1"), LastNum(kvs, "y1"), LastNum(kvs, "x2"), LastNum(kvs, "y2"))
    case (Ok(x1), Ok(y1), Ok(x2), Ok(y2)) => Done(Line(c, x1, y1, x2, y2), rest)
    case _ => Abort
  }

  lemma LineFromStrOf(s: string, c: CommonKVs, kvs: Option<map<string, string>>, rest: string)
    requires CommonFromStr(StrTrim(s)) == Done((c, kvs), rest)
    ensures LineFromStr(s)
              == match (NumField(kvs, "x1"), NumField(kvs, "y1"), NumField(kvs, "x2"), NumField(kvs, "y2"))
                 case (Ok(x1), Ok(y1), Ok(x2), Ok(y2)) => Done(Line(c, x1, y1, x2, y2), rest)
                 case _ => Abort
  {
  }

  /**
   * `from_str` reads each of `x1`, `y1`, `x2`, `y2` as the last value of that
   * attribute (absent when it does not occur) and aborts when one of them is not
   * a float or the common attributes do not read.
   */
  lemma LineFromStrSpec(s: string)
    ensures LineFromStr(s)
              == match CommonFromStr(StrTrim(s))
                 case Done((c, _), rest) => LineOf(c, AttrList(s), rest)
                 case _ => Abort
  {
    var q := CommonFromStr(StrTrim(s));
    if q.Done? {
      LineFromStrOf(s, q.value.0, q.value.1, q.rest);
      OwnKeys();
      NumFieldIsLast(s, "x1");
      NumFieldIsLast(s, "y1");
      NumFieldIsLast(s, "x2");
      NumFieldIsLast(s, "y2");
    }
  }

  function LinePairs(l: Line): seq<Pair> {
    [NumPair("x1", l.x1), NumPair("y1", l.y1), NumPair("x2", l.x2), NumPair("y2", l.y2)]
  }

  /** The attribute text between `<line` and `/>`. */
  function LineBody(l: Line): string {
    " " + RenderPairs(LinePairs(l) + CommonPairs(l.common)) + " "
  }

  /** `Display`: `<line x1="X1" y1="Y1" x2="X2" y2="Y2" COMMON />`, with 0 for absent values. */
  function LineText(l: Line): string {
    "<line" + LineBody(l) + "/>"
  }

  predicate WellFormedLine(l: Line) {
    WellFormedCommon(l.common) && CanonicalOpt(l.x1) && CanonicalOpt(l.y1)
    && CanonicalOpt(l.x2) && CanonicalOpt(l.y2)
  }

  /** The written own attributes are distinct, unrecognised, and read back. */
  lemma LinePairsFacts(l: Line)
    requires WellFormedLine(l)
    ensures var own := LinePairs(l);
            |own| > 0 && OwnPairs(own) && ValidPairs(own)
            && forall i, j :: 0 <= i < j < |own| ==> own[i].0 != own[j].0
  {
    var own := LinePairs(l);
    OwnKeys();
    OwnKeysValid();
    NumPairReadsBack("x1", l.x1);
    NumPairReadsBack("y1", l.y1);
    NumPairReadsBack("x2", l.x2);
    NumPairReadsBack("y2", l.y2);
    FourOwnPairs(own[0], own[1], own[2], own[3]);
  }

  /**
   * A written line reads back with its common attributes unchanged and its four
   * coordinates present, absent ones as 0.
   */
  lemma LineReadBack(l: Line, t: string)
    requires WellFormedLine(l)
    requires |t| > 0 && !IsWhitespace(t[0]) && !IsAlphanumeric(t[0]) && !IsWhitespace(t[|t| - 1])
    ensures LineFromStr(LineBody(l) + t)
              == Done(Line(l.common, Some(OrZero(l.x1)), Some(OrZero(l.y1)),
                           Some(OrZero(l.x2)), Some(OrZero(l.y2))), t)
  {
    var own := LinePairs(l);
    var s := LineBody(l) + t;
    LinePairsFacts(l);
    ShapeReadBack(own, l.common, " ", t);
    var m := ToMap(own);
    LineFromStrOf(s, l.common, Some(m), t);
    ToMapHas(own, 0);
    ToMapHas(own, 1);
    ToMapHas(own, 2);
    ToMapHas(own, 3);
    NumAttrOf(m, "x1", l.x1);
    NumAttrOf(m, "y1", l.y1);
    NumAttrOf(m, "x2", l.x2);
    NumAttrOf(m, "y2", l.y2);
  }
}
