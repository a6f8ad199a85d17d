/**
 * What the shape elements (`src/children/{path,circle,ellipse,line,rect}.rs`) share:
 * each reads its attribute list with `CommonKVs::from_str`, takes its own
 * attributes from the others map, and writes its own attributes before the
 * common ones.
 */
module ShapeAttributes {
  import opened Wrappers
  import opened Text
  import opened Decimal
  import opened Float
  import opened Parser
  import opened Attributes
  import opened Value
  import opened Common

  /**
   * `get(k).map(|v| v.parse().unwrap())` on the others map for an `f32` field:
   * absent is `None`, and a value that is not a float aborts.
   */
  function NumAttr(m: map<string, string>, k: string): (r: Result<Option<Num>>)
    ensures !r.Err?
    ensures r == Ok(None) <==> k !in m
    ensures r.Panic? <==> k in m && ParseF32(m[k]).Err?
    ensures r.Ok? && r.value.Some? ==> k in m && ParseF32(m[k]) == Ok(r.value.value)
  {
    if k in m then
      match ParseF32(m[k])
      case Ok(n) => Ok(Some(n))
      case _ => Panic
    else Ok(None)
  }

  /** The attribute list that a shape's `from_str`, through `CommonKVs::from_str`, reads. */
  function AttrList(s: string): seq<Pair> {
    ParseProperties(StrTrim(StrTrim(s))).value
  }

  /** An attribute of the others map, absent when there is no map. */
  function OtherValue(others: Option<map<string, string>>, k: string): Option<string> {
    if others.None? then None else Lookup(others.value, k)
  }

  /** A numeric field read from the others map; with no map every field is absent. */
  function NumField(others: Option<map<string, string>>, k: string): Result<Option<Num>> {
    if others.None? then Ok(None) else NumAttr(others.value, k)
  }

  /** An `Auto<f32>` field read with `Auto::get_from_map`; with no map it is `auto`. */
  function AutoField(others: Option<map<string, string>>, k: string): Result<Auto<Num>> {
    if others.None? then Ok(Auto(None)) else GetFromMap(others.value, k, ParseF32)
  }

  /** The reference: the last value of `k` in the list, parsed as a float; a bad one aborts. */
  function LastNum(kvs: seq<Pair>, k: string): (r: Result<Option<Num>>)
    ensures !r.Err?
    ensures r == Ok(None) <==> LastValue(kvs, k).None?
  {
    match LastValue(kvs, k)
    case None => Ok(None)
    case Some(v) => (match ParseF32(v) case Ok(n) => Ok(Some(n)) case _ => Panic)
  }

  /** The reference: the last value of `k` in the list read as `Auto<f32>`; absent is `auto`. */
  function LastAuto(kvs: seq<Pair>, k: string): (r: Result<Auto<Num>>)
    ensures !r.Err?
    ensures LastValue(kvs, k).None? ==> r == Ok(Auto(None))
  {
    match LastValue(kvs, k)
    case None => Ok(Auto(None))
    case Some(v) => (match AutoFromStr(v, ParseF32) case Ok(a) => Ok(a) case _ => Panic)
  }

  /**
   * An attribute that `CommonKVs` does not claim is found in the others map exactly
   * as its last occurrence in the attribute list, verbatim.
   */
  lemma OtherValueIsLast(s: string, k: string)
    requires !IsCommonKey(k)
    requires CommonFromStr(StrTrim(s)).Done?
    ensures OtherValue(CommonFromStr(StrTrim(s)).value.1, k) == LastValue(AttrList(s), k)
  {
    var kvs := AttrList(s);
    CommonFoldMatches(kvs);
    OthersSpec(kvs, k);
    if Others(kvs).None? {
      LastValueSpec(kvs, k);
    }
  }

  /** A numeric field of a shape is the last value of its key, parsed. */
  lemma NumFieldIsLast(s: string, k: string)
    requires !IsCommonKey(k)
    requires CommonFromStr(StrTrim(s)).Done?
    ensures NumField(CommonFromStr(StrTrim(s)).value.1, k) == LastNum(AttrList(s), k)
  {
    OtherValueIsLast(s, k);
  }

  /** An `Auto` field of a shape is the last value of its key read as `Auto<f32>`. */
  lemma AutoFieldIsLast(s: string, k: string)
    requires !IsCommonKey(k)
    requires CommonFromStr(StrTrim(s)).Done?
    ensures AutoField(CommonFromStr(StrTrim(s)).value.1, k) == LastAuto(AttrList(s), k)
  {
    OtherValueIsLast(s, k);
  }

  /** `unwrap_or(&0_f32)`: the value, or 0 when it is absent. */
  function OrZero(o: Option<Num>): Num {
    o.GetOr(FromInt(0))
  }

  /** One numeric attribute as the renderers write it, 0 standing in for an absent value. */
  function NumPair(k: string, o: Option<Num>): Pair {
    (k, NumText(OrZero(o)))
  }

  /** The numbers a shape writes so that they read back unchanged. */
  predicate CanonicalOpt(o: Option<Num>) {
    o.Some? ==> Canonical(o.value)
  }

  /** Attributes none of which `CommonKVs` claims, so that all go to the others map. */
  predicate OwnPairs(own: seq<Pair>) {
    forall i :: 0 <= i < |own| ==> !IsCommonKey(own[i].0)
  }

  /** Every recognised key is `x`, `y`, or at least four characters long and starts with `f` or `s`. */
  lemma CommonKeyShape(k: string)
    requires IsCommonKey(k)
    ensures (|k| == 1 && (k[0] == 'x' || k[0] == 'y')) || (|k| >= 4 && (k[0] == 'f' || k[0] == 's'))
  {
  }

  /** The shapes' own attribute names are not recognised keys. */
  lemma OwnKeys()
    ensures !IsCommonKey("d") && !IsCommonKey("r")
    ensures !IsCommonKey("cx") && !IsCommonKey("cy") && !IsCommonKey("rx") && !IsCommonKey("ry")
    ensures !IsCommonKey("x1") && !IsCommonKey("y1") && !IsCommonKey("x2") && !IsCommonKey("y2")
    ensures !IsCommonKey("width") && !IsCommonKey("height")
  {
    forall k | IsCommonKey(k)
      ensures k != "d" && k != "r" && k != "cx" && k != "cy" && k != "rx" && k != "ry"
      ensures k != "x1" && k != "y1" && k != "x2" && k != "y2" && k != "width" && k != "height"
    {
      CommonKeyShape(k);
    }
  }

  /** The shapes' own attribute names are keys that `parse_property` reads. */
  lemma OwnKeysValid()
    ensures IsKey("d", '-') && IsKey("r", '-')
    ensures IsKey("cx", '-') && IsKey("cy", '-') && IsKey("rx", '-') && IsKey("ry", '-')
    ensures IsKey("x1", '-') && IsKey("y1", '-') && IsKey("x2", '-') && IsKey("y2", '-')
    ensures IsKey("width", '-') && IsKey("height", '-')
  {
  }

  /** A written numeric attribute reads back as the value, or as 0 when it was absent. */
  lemma NumPairReadsBack(k: string, o: Option<Num>)
    requires CanonicalOpt(o)
    ensures ParseF32(NumPair(k, o).1) == Ok(OrZero(o))
    ensures QuoteFree(NumPair(k, o).1)
  {
    NumTextQuoteFree(OrZero(o));
    ParseF32RoundTrip(OrZero(o));
  }

  /** The others map holds a written numeric attribute as the value's text. */
  lemma NumAttrOf(m: map<string, string>, k: string, o: Option<Num>)
    requires CanonicalOpt(o)
    requires k in m && m[k] == NumPair(k, o).1
    ensures NumAttr(m, k) == Ok(Some(OrZero(o)))
  {
    NumPairReadsBack(k, o);
  }

  lemma {:induction false} UnknownsConcat(a: seq<Pair>, b: seq<Pair>)
    ensures Unknowns(a + b) == Unknowns(a) + Unknowns(b)
    decreases |b|
  {
    if b == [] {
      assert a + b == a;
    } else {
      var b' := b[..|b| - 1];
      var kv := b[|b| - 1];
      assert a + b == (a + b') + [kv];
      assert b == b' + [kv];
      UnknownsConcat(a, b');
      UnknownsSnoc(a + b', kv);
      UnknownsSnoc(b', kv);
    }
  }

  lemma {:induction false} UnknownsOwn(own: seq<Pair>)
    requires OwnPairs(own)
    ensures Unknowns(own) == own
    decreases |own|
  {
    if own != [] {
      var init := own[..|own| - 1];
      var kv := own[|own| - 1];
      assert own == init + [kv];
      UnknownsOwn(init);
      UnknownsSnoc(init, kv);
    }
  }

  /** The shape's own attributes never hide a common key's value. */
  lemma OwnLeavesCommon(own: seq<Pair>, cp: seq<Pair>, k: string)
    requires OwnPairs(own)
    requires IsCommonKey(k)
    ensures LastValue(own + cp, k) == LastValue(cp, k)
  {
    LastValueConcat(own, cp, k);
    LastValueSpec(own, k);
  }

  lemma AllParseAfterOwn(own: seq<Pair>, cp: seq<Pair>)
    requires OwnPairs(own)
    requires forall i :: 0 <= i < |cp| ==> ValueParses(cp[i])
    ensures forall i :: 0 <= i < |own + cp| ==> ValueParses((own + cp)[i])
  {
    var ps := own + cp;
    forall i | 0 <= i < |ps|
      ensures ValueParses(ps[i])
    {
      if i >= |own| {
        assert ps[i] == cp[i - |own|];
      } else {
        assert ps[i] == own[i];
        assert !IsCommonKey(ps[i].0);
      }
    }
  }

  /** Own attributes in front leave every common field as the common pairs alone set it. */
  lemma CommonAfterOwn(own: seq<Pair>, cp: seq<Pair>)
    requires OwnPairs(own)
    requires forall i :: 0 <= i < |cp| ==> ValueParses(cp[i])
    ensures CommonFromPairs(cp).Ok? && CommonFromPairs(own + cp).Ok?
    ensures CommonFromPairs(own + cp).value.common == CommonFromPairs(cp).value.common
  {
    AllParseAfterOwn(own, cp);
    OwnLeavesCommon(own, cp, "x");
    OwnLeavesCommon(own, cp, "y");
    OwnLeavesCommon(own, cp, "fill");
    OwnLeavesCommon(own, cp, "stroke");
    OwnLeavesCommon(own, cp, "stroke-width");
    OwnLeavesCommon(own, cp, "stroke-linecap");
    OwnLeavesCommon(own, cp, "stroke-linejoin");
    OwnLeavesCommon(own, cp, "stroke-dasharray");
    OwnLeavesCommon(own, cp, "stroke-dashoffset");
    OwnLeavesCommon(own, cp, "stroke-opacity");
    OwnLeavesCommon(own, cp, "stroke-miterlimit");
    assert CommonFields(own + cp) == CommonFields(cp);
  }

  /** Own attributes in front of common ones make up the whole others map. */
  lemma OthersAfterOwn(own: seq<Pair>, cp: seq<Pair>)
    requires |own| > 0 && OwnPairs(own)
    requires forall i :: 0 <= i < |cp| ==> IsCommonKey(cp[i].0)
    ensures Others(own + cp) == Some(ToMap(own))
  {
    var ps := own + cp;
    assert ps[0] == own[0];
    assert !IsCommonKey(ps[0].0);
    UnknownsConcat(own, cp);
    UnknownsOwn(own);
    UnknownsEmpty(cp);
    AppendNil(own);
  }

  /**
   * The shape's own attributes followed by the common ones fold to the common
   * value with the own attributes, each under its last value, in the others map.
   */
  lemma OwnThenCommon(own: seq<Pair>, c: CommonKVs)
    requires |own| > 0 && OwnPairs(own)
    requires WellFormedCommon(c)
    ensures CommonFold(own + CommonPairs(c)) == Ok(Acc(c, Some(ToMap(own))))
  {
    var cp := CommonPairs(c);
    CommonPairsValid(c);
    CommonFoldRoundTrip(c);
    CommonFoldMatches(cp);
    CommonFoldMatches(own + cp);
    CommonAfterOwn(own, cp);
    OthersAfterOwn(own, cp);
  }

  /** Rust's `trim_start` drops a run of spaces in front of a non-space. */
  lemma TrimStartSpace(x: string)
    requires x == [] || !IsWhitespace(x[0])
    ensures TrimStart(" " + x) == x
  {
    assert (" " + x)[1..] == x;
    TrimStartNoop(x);
  }

  /** Rust's `trim` on a shape's attribute text: the leading space and nothing else goes. */
  lemma TrimBody(ps: seq<Pair>, gap: string, t: string)
    requires ValidPairs(ps)
    requires gap == "" || gap == " "
    requires |t| > 0 && !IsWhitespace(t[0]) && !IsWhitespace(t[|t| - 1])
    ensures StrTrim(" " + RenderPairs(ps) + gap + t)
              == if ps == [] then t else RenderPairs(ps) + (gap + t)
  {
    var r := RenderPairs(ps);
    var x := r + (gap + t);
    Assoc(" " + r, gap, t);
    Assoc(" ", r, gap + t);
    if ps == [] {
      assert x == gap + t;
      if gap == " " {
        assert (" " + (gap + t))[1..] == " " + t;
        TrimStartSpace(t);
      } else {
        TrimStartSpace(t);
      }
      TrimEndNoop(t);
    } else {
      RenderPairsHead(ps, gap + t);
      TrimStartSpace(x);
      assert x[|x| - 1] == t[|t| - 1];
      TrimEndNoop(x);
    }
  }

  /**
   * A shape's attributes as the renderers write them, a space, and the text after
   * them: `CommonKVs::from_str` on the trimmed text reads the fold of the pairs and
   * stops at that text.
   */
  lemma BodyReadBack(ps: seq<Pair>, gap: string, t: string, a: Acc)
    requires ValidPairs(ps)
    requires gap == "" || gap == " "
    requires |t| > 0 && !IsWhitespace(t[0]) && !IsAlphanumeric(t[0]) && !IsWhitespace(t[|t| - 1])
    requires CommonFold(ps) == Ok(a)
    ensures CommonFromStr(StrTrim(" " + RenderPairs(ps) + gap + t)) == Done((a.common, a.others), t)
  {
    TrimBody(ps, gap, t);
    var x := if ps == [] then t else RenderPairs(ps) + (gap + t);
    if ps == [] {
      StrTrimNoop(t);
      SkipMultispaceNoop(t);
      ParsePropertiesStops(t);
    } else {
      RenderPairsHead(ps, gap + t);
      assert x[|x| - 1] == t[|t| - 1];
      StrTrimNoop(x);
      SkipMultispaceNoop(t);
      if gap == " " {
        SkipOneSpace(t);
      }
      assert SkipMultispace(gap + t) == t;
      ParsePropertiesRoundTrip(ps, gap + t);
    }
  }

  /**
   * A shape's own attributes followed by its common ones, as the renderers write
   * them, read back as the common value with the own attributes in the others map.
   */
  lemma ShapeReadBack(own: seq<Pair>, c: CommonKVs, gap: string, t: string)
    requires |own| > 0 && OwnPairs(own) && ValidPairs(own)
    requires WellFormedCommon(c)
    requires gap == "" || gap == " "
    requires |t| > 0 && !IsWhitespace(t[0]) && !IsAlphanumeric(t[0]) && !IsWhitespace(t[|t| - 1])
    ensures CommonFromStr(StrTrim(" " + RenderPairs(own + CommonPairs(c)) + gap + t))
              == Done((c, Some(ToMap(own))), t)
  {
    var cp := CommonPairs(c);
    CommonPairsValid(c);
    assert ValidPairs(own + cp) by {
      forall i | 0 <= i < |own + cp|
        ensures ValidPair((own + cp)[i])
      {
        if i >= |own| {
          assert (own + cp)[i] == cp[i - |own|];
        } else {
          assert (own + cp)[i] == own[i];
        }
      }
    }
    OwnThenCommon(own, c);
    BodyReadBack(own + cp, gap, t, Acc(c, Some(ToMap(own))));
  }

  /** The empty common value is well formed and writes no pairs. */
  lemma EmptyCommonPairs()
    ensures WellFormedCommon(EmptyCommon)
    ensures CommonPairs(EmptyCommon) == []
  {
    var s := Slots(EmptyCommon);
    assert forall i :: 0 <= i < |s| ==> s[i].1.None?;
    NonePresent(s);
  }

  /** In the map built from pairs with distinct keys, each key holds its own value. */
  lemma ToMapHas(own: seq<Pair>, i: nat)
    requires i < |own|
    requires forall a, b :: 0 <= a < b < |own| ==> own[a].0 != own[b].0
    ensures own[i].0 in ToMap(own) && ToMap(own)[own[i].0] == own[i].1
  {
    assert forall j :: 0 <= j < |own| && j != i ==> own[j].0 != own[i].0 by {
      forall j | 0 <= j < |own| && j != i
        ensures own[j].0 != own[i].0
      {
        if j < i {
          assert own[j].0 != own[i].0;
        } else {
          assert own[i].0 != own[j].0;
        }
      }
    }
    LastValueOfUnique(own, i);
  }

  /** What a shape needs of one own attribute: not recognised, a valid key, a quote-free value. */
  predicate OwnPair(kv: Pair) {
    !IsCommonKey(kv.0) && ValidPair(kv)
  }

  /** Three own attributes with distinct names. */
  lemma ThreeOwnPairs(a: Pair, b: Pair, c: Pair)
    requires OwnPair(a) && OwnPair(b) && OwnPair(c)
    requires a.0 != b.0 && a.0 != c.0 && b.0 != c.0
    ensures var own := [a, b, c];
            OwnPairs(own) && ValidPairs(own) && forall i, j :: 0 <= i < j < |own| ==> own[i].0 != own[j].0
  {
  }

  /** Four own attributes with distinct names. */
  lemma FourOwnPairs(a: Pair, b: Pair, c: Pair, d: Pair)
    requires OwnPair(a) && OwnPair(b) && OwnPair(c) && OwnPair(d)
    requires a.0 != b.0 && a.0 != c.0 && a.0 != d.0 && b.0 != c.0 && b.0 != d.0 && c.0 != d.0
    ensures var own := [a, b, c, d];
            OwnPairs(own) && ValidPairs(own) && forall i, j :: 0 <= i < j < |own| ==> own[i].0 != own[j].0
  {
  }

  /** The `Auto<f32>` values a shape writes so that they read back unchanged. */
  predicate CanonicalAuto(a: Auto<Num>) {
    a.inner.Some? ==> Canonical(a.inner.value)
  }

  /** One `Auto<f32>` attribute as the renderers write it: `auto` or the number. */
  function AutoPair(k: string, a: Auto<Num>): Pair {
    (k, AutoRender(a, NumText))
  }

  /** A written `Auto<f32>` attribute reads back as the same value. */
  lemma AutoPairReadsBack(k: string, a: Auto<Num>)
    requires CanonicalAuto(a)
    ensures AutoFromStr(AutoPair(k, a).1, ParseF32) == Ok(a)
    ensures QuoteFree(AutoPair(k, a).1)
  {
    NumAutoRoundTrip(a);
    if a.inner.Some? {
      NumTextQuoteFree(a.inner.value);
    }
  }

  /** The others map holds a written `Auto<f32>` attribute, and `get_from_map` reads it back. */
  lemma AutoAttrOf(m: map<string, string>, k: string, a: Auto<Num>)
    requires CanonicalAuto(a)
    requires k in m && m[k] == AutoPair(k, a).1
    ensures GetFromMap(m, k, ParseF32) == Ok(a)
  {
    AutoPairReadsBack(k, a);
  }

  /** A key that `CommonKVs` claims never reaches the others map, so a shape never reads it. */
  lemma CommonKeyNotOther(s: string, k: string)
    requires IsCommonKey(k)
    requires CommonFromStr(StrTrim(s)).Done?
    ensures OtherValue(CommonFromStr(StrTrim(s)).value.1, k).None?
    ensures NumField(CommonFromStr(StrTrim(s)).value.1, k) == Ok(None)
  {
    var kvs := AttrList(s);
    CommonFoldMatches(kvs);
    OthersSpec(kvs, k);
  }

  /** Pairs none of which has key `k` do not change the last value of `k` after them. */
  lemma AbsentKeyLeaves(a: seq<Pair>, b: seq<Pair>, k: string)
    requires forall i :: 0 <= i < |a| ==> a[i].0 != k
    ensures LastValue(a + b, k) == LastValue(b, k)
  {
    LastValueConcat(a, b, k);
    LastValueSpec(a, k);
  }

  /** A pair that `CommonKVs` does not claim never aborts the loop. */
  lemma OtherParses(kv: Pair)
    requires !IsCommonKey(kv.0)
    ensures ValueParses(kv)
  {
  }

  /** A written position reads as a float, so the loop accepts it. */
  lemma PositionParses(k: string, o: Option<Num>)
    requires k == "x" || k == "y"
    requires CanonicalOpt(o)
    ensures ValueParses(NumPair(k, o))
  {
    NumPairReadsBack(k, o);
  }

  /** Every value in the list parses as its key's type, so the loop does not abort. */
  predicate AllParse(ps: seq<Pair>) {
    forall i :: 0 <= i < |ps| ==> ValueParses(ps[i])
  }

  lemma AllParseConcat(a: seq<Pair>, b: seq<Pair>)
    requires AllParse(a) && AllParse(b)
    ensures AllParse(a + b)
  {
    forall i | 0 <= i < |a + b|
      ensures ValueParses((a + b)[i])
    {
      if i < |a| {
        assert (a + b)[i] == a[i];
      } else {
        assert (a + b)[i] == b[i - |a|];
      }
    }
  }

  lemma OwnAllParse(own: seq<Pair>)
    requires OwnPairs(own)
    ensures AllParse(own)
  {
    forall i | 0 <= i < |own|
      ensures ValueParses(own[i])
    {
      OtherParses(own[i]);
    }
  }

  lemma AllParseTwo(a: Pair, b: Pair)
    requires ValueParses(a) && ValueParses(b)
    ensures AllParse([a, b])
  {
  }

  lemma ValidPairsConcat(a: seq<Pair>, b: seq<Pair>)
    requires ValidPairs(a) && ValidPairs(b)
    ensures ValidPairs(a + b)
  {
    forall i | 0 <= i < |a + b|
      ensures ValidPair((a + b)[i])
    {
      if i < |a| {
        assert (a + b)[i] == a[i];
      } else {
        assert (a + b)[i] == b[i - |a|];
      }
    }
  }

  lemma ValidPairsTwo(a: Pair, b: Pair)
    requires ValidPair(a) && ValidPair(b)
    ensures ValidPairs([a, b])
  {
  }
}
