/**
 * `CommonKVs` (`src/children/common.rs`): the presentation attributes every shape
 * shares, split off from the shape's own attributes.
 *
 * `CommonFold` is the crate's loop over the attribute list; `CommonFromPairs` says
 * what that loop computes in one step (any bad value aborts, otherwise every
 * field holds its key's last value); `CommonFoldMatches` proves they agree.
 */
module Common {
  import opened Wrappers
  import opened Text
  import opened Decimal
  import opened Float
  import opened Parser
  import opened Attributes
  import opened LineCapValue
  import opened LineJoinValue
  import opened OpacityValue
  import opened DashOffsetValue
  import opened MiterLimitValue
  import opened DashArrayValue

  datatype CommonKVs = CommonKVs(
    x: Option<Num>,
    y: Option<Num>,
    fill: Option<string>,
    stroke: Option<string>,
    strokeWidth: Option<Num>,
    lineCap: Option<LineCap>,
    lineJoin: Option<LineJoin>,
    dashArray: Option<DashArray>,
    dashOffset: Option<DashOffset>,
    opacity: Option<Opacity>,
    miterLimit: Option<MiterLimit>)

  /** `Default`: every field absent */
  const EmptyCommon: CommonKVs :=
    CommonKVs(None, None, None, None, None, None, None, None, None, None, None)

  /** The recognised keys, in the order the renderer writes them. */
  const CommonKeys: seq<string> := [
    "x", "y", "fill", "stroke", "stroke-width", "stroke-linecap", "stroke-linejoin",
    "stroke-dasharray", "stroke-dashoffset", "stroke-opacity", "stroke-miterlimit"
  ]

  predicate IsCommonKey(k: string) {
    k in CommonKeys
  }

  /** The shared attributes and the map of all other attributes, if any occurred. */
  datatype Acc = Acc(common: CommonKVs, others: Option<map<string, string>>)

  /** Whether the value of a pair parses as its key's type; other keys always do. */
  predicate ValueParses(kv: Pair) {
    var k := kv.0;
    var v := kv.1;
    if k == "x" || k == "y" || k == "stroke-width" then ParseF32(v).Ok?
    else if k == "stroke-linecap" then LineCapFromStr(v).Ok?
    else if k == "stroke-linejoin" then LineJoinFromStr(v).Ok?
    else if k == "stroke-dasharray" then DashArrayFromStr(v).Ok?
    else if k == "stroke-dashoffset" then DashOffsetFromStr(v).Ok?
    else if k == "stroke-opacity" then OpacityFromStr(v).Ok?
    else if k == "stroke-miterlimit" then MiterLimitFromStr(v).Ok?
    else true
  }

  /** One iteration of the loop: the pair's field replaced, or the pair added to others. */
  function Update(a: Acc, kv: Pair): Acc
    requires ValueParses(kv)
  {
    var c := a.common;
    var k := kv.0;
    var v := kv.1;
    if k == "x" then a.(common := c.(x := Some(ParseF32(v).value)))
    else if k == "y" then a.(common := c.(y := Some(ParseF32(v).value)))
    else if k == "fill" then a.(common := c.(fill := Some(v)))
    else if k == "stroke" then a.(common := c.(stroke := Some(v)))
    else if k == "stroke-width" then a.(common := c.(strokeWidth := Some(ParseF32(v).value)))
    else if k == "stroke-linecap" then a.(common := c.(lineCap := Some(LineCapFromStr(v).value)))
    else if k == "stroke-linejoin" then a.(common := c.(lineJoin := Some(LineJoinFromStr(v).value)))
    else if k == "stroke-dasharray" then a.(common := c.(dashArray := Some(DashArrayFromStr(v).value)))
    else if k == "stroke-dashoffset" then a.(common := c.(dashOffset := Some(DashOffsetFromStr(v).value)))
    else if k == "stroke-opacity" then a.(common := c.(opacity := Some(OpacityFromStr(v).value)))
    else if k == "stroke-miterlimit" then a.(common := c.(miterLimit := Some(MiterLimitFromStr(v).value)))
    else a.(others := Some(a.others.GetOr(map[])[k := v]))
  }

  /**
   * The loop of `CommonKVs::from_str` over the pairs in document order: each value
   * is parsed when its pair is reached, and a failed parse aborts.
   */
  function CommonFold(kvs: seq<Pair>): (r: Result<Acc>)
    ensures !r.Err?
    decreases |kvs|
  {
    if kvs == [] then Ok(Acc(EmptyCommon, None))
    else
      var kv := kvs[|kvs| - 1];
      match CommonFold(kvs[..|kvs| - 1])
      case Ok(a) => if ValueParses(kv) then Ok(Update(a, kv)) else Panic
      case _ => Panic
  }

  // ------------------------------------------------ the reference definition

  /** The parsed last value of key `k`, if it occurs. */
  function Field<T>(kvs: seq<Pair>, k: string, parse: string -> Result<T>): Option<T> {
    match LastValue(kvs, k)
    case None => None
    case Some(v) => (match parse(v) case Ok(x) => Some(x) case _ => None)
  }

  /** The pairs whose keys are not recognised, in order. */
  function Unknowns(kvs: seq<Pair>): (r: seq<Pair>)
    ensures forall i :: 0 <= i < |r| ==> !IsCommonKey(r[i].0)
    decreases |kvs|
  {
    if kvs == [] then []
    else
      var kv := kvs[|kvs| - 1];
      Unknowns(kvs[..|kvs| - 1]) + (if IsCommonKey(kv.0) then [] else [kv])
  }

  /** The others map: absent when every key is recognised, else the last value of each other key. */
  function Others(kvs: seq<Pair>): Option<map<string, string>> {
    if forall i :: 0 <= i < |kvs| ==> IsCommonKey(kvs[i].0) then None
    else Some(ToMap(Unknowns(kvs)))
  }

  /**
   * What the loop computes: an abort when any recognised key holds a value of
   * the wrong form, otherwise each field holds its key's last value and the
   * other attributes go to the map.
   */
  function CommonFromPairs(kvs: seq<Pair>): Result<Acc> {
    if forall i :: 0 <= i < |kvs| ==> ValueParses(kvs[i]) then
      Ok(Acc(CommonFields(kvs), Others(kvs)))
    else
      Panic
  }

  /** Each field as its key's last value, parsed. */
  function CommonFields(kvs: seq<Pair>): CommonKVs {
    CommonKVs(
      Field(kvs, "x", ParseF32),
      Field(kvs, "y", ParseF32),
      LastValue(kvs, "fill"),
      LastValue(kvs, "stroke"),
      Field(kvs, "stroke-width", ParseF32),
      Field(kvs, "stroke-linecap", LineCapFromStr),
      Field(kvs, "stroke-linejoin", LineJoinFromStr),
      Field(kvs, "stroke-dasharray", DashArrayFromStr),
      Field(kvs, "stroke-dashoffset", DashOffsetFromStr),
      Field(kvs, "stroke-opacity", OpacityFromStr),
      Field(kvs, "stroke-miterlimit", MiterLimitFromStr))
  }

  // ------------------------------------------------ the loop computes the reference

  lemma {:induction false} CommonFoldMatches(kvs: seq<Pair>)
    ensures CommonFold(kvs) == CommonFromPairs(kvs)
    decreases |kvs|
  {
    if kvs != [] {
      var init := kvs[..|kvs| - 1];
      var kv := kvs[|kvs| - 1];
      CommonFoldMatches(init);
      assert kvs == init + [kv];
      FoldSnoc(init, kv);
      FromPairsSnoc(init, kv);
    }
  }

  /** One more iteration of the loop. */
  lemma FoldSnoc(init: seq<Pair>, kv: Pair)
    ensures CommonFold(init + [kv])
              == match CommonFold(init)
                 case Ok(a) => if ValueParses(kv) then Ok(Update(a, kv)) else Panic
                 case _ => Panic
  {
    var kvs := init + [kv];
    assert kvs[..|kvs| - 1] == init;
  }

  /** The reference result for one more pair, from the result for the pairs before it. */
  lemma FromPairsSnoc(init: seq<Pair>, kv: Pair)
    ensures CommonFromPairs(init + [kv])
              == match CommonFromPairs(init)
                 case Ok(a) => if ValueParses(kv) then Ok(Update(a, kv)) else Panic
                 case _ => Panic
  {
    var kvs := init + [kv];
    assert forall i :: 0 <= i < |init| ==> kvs[i] == init[i];
    if CommonFromPairs(init).Ok? && ValueParses(kv) {
      UpdateMatches(init, kv);
    } else if CommonFromPairs(init).Ok? {
      assert !ValueParses(kvs[|init|]);
    } else {
      var i :| 0 <= i < |init| && !ValueParses(init[i]);
      assert !ValueParses(kvs[i]);
    }
  }

  /** One more pair changes the reference result as one iteration of the loop does. */
  lemma UpdateMatches(init: seq<Pair>, kv: Pair)
    requires forall i :: 0 <= i < |init| ==> ValueParses(init[i])
    requires ValueParses(kv)
    ensures CommonFromPairs(init + [kv]).Ok?
    ensures Update(CommonFromPairs(init).value, kv) == CommonFromPairs(init + [kv]).value
  {
    UpdateMatchesCommon(init, kv);
    UpdateOthers(CommonFromPairs(init).value, kv);
    OthersSnoc(init, kv);
  }

  lemma UpdateMatchesCommon(init: seq<Pair>, kv: Pair)
    requires forall i :: 0 <= i < |init| ==> ValueParses(init[i])
    requires ValueParses(kv)
    ensures CommonFromPairs(init + [kv]).Ok?
    ensures Update(CommonFromPairs(init).value, kv).common == CommonFromPairs(init + [kv]).value.common
  {
    var kvs := init + [kv];
    assert forall i :: 0 <= i < |kvs| ==> ValueParses(kvs[i]) by {
      assert forall i :: 0 <= i < |init| ==> kvs[i] == init[i];
    }
    UpdateFields(CommonFromPairs(init).value, init, kv);
  }

  /** One iteration of the loop sets the fields to those of the pairs with one more at the end. */
  lemma UpdateFields(a: Acc, init: seq<Pair>, kv: Pair)
    requires a.common == CommonFields(init)
    requires ValueParses(kv)
    ensures Update(a, kv).common == CommonFields(init + [kv])
  {
    var k := kv.0;
    if k == "x" {
      XSnoc(init, kv);
    } else if k == "y" {
      YSnoc(init, kv);
    } else if k == "fill" {
      FillSnoc(init, kv);
    } else if k == "stroke" {
      StrokeSnoc(init, kv);
    } else if k == "stroke-width" {
      StrokeWidthSnoc(init, kv);
    } else if k == "stroke-linecap" {
      LineCapSnoc(init, kv);
    } else if k == "stroke-linejoin" {
      LineJoinSnoc(init, kv);
    } else if k == "stroke-dasharray" {
      DashArraySnoc(init, kv);
    } else if k == "stroke-dashoffset" {
      DashOffsetSnoc(init, kv);
    } else if k == "stroke-opacity" {
      OpacitySnoc(init, kv);
    } else if k == "stroke-miterlimit" {
      MiterLimitSnoc(init, kv);
    } else {
      OtherSnoc(init, kv);
    }
  }

  lemma XSnoc(init: seq<Pair>, kv: Pair)
    requires kv.0 == "x"
    requires ParseF32(kv.1).Ok?
    ensures CommonFields(init + [kv]) == CommonFields(init).(x := Some(ParseF32(kv.1).value))
  {
    AllFieldsSnoc(init, kv);
  }

  lemma YSnoc(init: seq<Pair>, kv: Pair)
    requires kv.0 == "y"
    requires ParseF32(kv.1).Ok?
    ensures CommonFields(init + [kv]) == CommonFields(init).(y := Some(ParseF32(kv.1).value))
  {
    AllFieldsSnoc(init, kv);
  }

  lemma FillSnoc(init: seq<Pair>, kv: Pair)
    requires kv.0 == "fill"
    ensures CommonFields(init + [kv]) == CommonFields(init).(fill := Some(kv.1))
  {
    AllFieldsSnoc(init, kv);
  }

  lemma StrokeSnoc(init: seq<Pair>, kv: Pair)
    requires kv.0 == "stroke"
    ensures CommonFields(init + [kv]) == CommonFields(init).(stroke := Some(kv.1))
  {
    AllFieldsSnoc(init, kv);
  }

  lemma StrokeWidthSnoc(init: seq<Pair>, kv: Pair)
    requires kv.0 == "stroke-width"
    requires ParseF32(kv.1).Ok?
    ensures CommonFields(init + [kv]) == CommonFields(init).(strokeWidth := Some(ParseF32(kv.1).value))
  {
    AllFieldsSnoc(init, kv);
  }

  lemma LineCapSnoc(init: seq<Pair>, kv: Pair)
    requires kv.0 == "stroke-linecap"
    requires LineCapFromStr(kv.1).Ok?
    ensures CommonFields(init + [kv]) == CommonFields(init).(lineCap := Some(LineCapFromStr(kv.1).value))
  {
    AllFieldsSnoc(init, kv);
  }

  lemma LineJoinSnoc(init: seq<Pair>, kv: Pair)
    requires kv.0 == "stroke-linejoin"
    requires LineJoinFromStr(kv.1).Ok?
    ensures CommonFields(init + [kv]) == CommonFields(init).(lineJoin := Some(LineJoinFromStr(kv.1).value))
  {
    AllFieldsSnoc(init, kv);
  }

  lemma DashArraySnoc(init: seq<Pair>, kv: Pair)
    requires kv.0 == "stroke-dasharray"
    requires DashArrayFromStr(kv.1).Ok?
    ensures CommonFields(init + [kv]) == CommonFields(init).(dashArray := Some(DashArrayFromStr(kv.1).value))
  {
    AllFieldsSnoc(init, kv);
  }

  lemma DashOffsetSnoc(init: seq<Pair>, kv: Pair)
    requires kv.0 == "stroke-dashoffset"
    requires DashOffsetFromStr(kv.1).Ok?
    ensures CommonFields(init + [kv]) == CommonFields(init).(dashOffset := Some(DashOffsetFromStr(kv.1).value))
  {
    AllFieldsSnoc(init, kv);
  }

  lemma OpacitySnoc(init: seq<Pair>, kv: Pair)
    requires kv.0 == "stroke-opacity"
    requires OpacityFromStr(kv.1).Ok?
    ensures CommonFields(init + [kv]) == CommonFields(init).(opacity := Some(OpacityFromStr(kv.1).value))
  {
    AllFieldsSnoc(init, kv);
  }

  lemma MiterLimitSnoc(init: seq<Pair>, kv: Pair)
    requires kv.0 == "stroke-miterlimit"
    requires MiterLimitFromStr(kv.1).Ok?
    ensures CommonFields(init + [kv]) == CommonFields(init).(miterLimit := Some(MiterLimitFromStr(kv.1).value))
  {
    AllFieldsSnoc(init, kv);
  }

  lemma OtherSnoc(init: seq<Pair>, kv: Pair)
    requires !IsCommonKey(kv.0)
    ensures CommonFields(init + [kv]) == CommonFields(init)
  {
    AllFieldsSnoc(init, kv);
  }

  /** A recognised key leaves the others map alone; any other key is inserted into it. */
  lemma UpdateOthers(a: Acc, kv: Pair)
    requires ValueParses(kv)
    ensures Update(a, kv).others
              == if IsCommonKey(kv.0) then a.others else Some(a.others.GetOr(map[])[kv.0 := kv.1])
  {
  }

  /** A field after one more pair: the pair's parsed value under its own key, else unchanged. */
  function SnocField<T>(before: Option<T>, kv: Pair, k: string, parse: string -> Result<T>): Option<T> {
    if kv.0 == k then (match parse(kv.1) case Ok(x) => Some(x) case _ => None) else before
  }

  /** One more pair changes at most the field of its own key. */
  lemma AllFieldsSnoc(init: seq<Pair>, kv: Pair)
    ensures var c, c' := CommonFields(init), CommonFields(init + [kv]);
            && c'.x == SnocField(c.x, kv, "x", ParseF32)
            && c'.y == SnocField(c.y, kv, "y", ParseF32)
            && c'.fill == (if kv.0 == "fill" then Some(kv.1) else c.fill)
            && c'.stroke == (if kv.0 == "stroke" then Some(kv.1) else c.stroke)
            && c'.strokeWidth == SnocField(c.strokeWidth, kv, "stroke-width", ParseF32)
            && c'.lineCap == SnocField(c.lineCap, kv, "stroke-linecap", LineCapFromStr)
            && c'.lineJoin == SnocField(c.lineJoin, kv, "stroke-linejoin", LineJoinFromStr)
            && c'.dashArray == SnocField(c.dashArray, kv, "stroke-dasharray", DashArrayFromStr)
            && c'.dashOffset == SnocField(c.dashOffset, kv, "stroke-dashoffset", DashOffsetFromStr)
            && c'.opacity == SnocField(c.opacity, kv, "stroke-opacity", OpacityFromStr)
            && c'.miterLimit == SnocField(c.miterLimit, kv, "stroke-miterlimit", MiterLimitFromStr)
  {
    FieldSnoc(init, kv, "x", ParseF32);
    FieldSnoc(init, kv, "y", ParseF32);
    LastValueSnoc(init, kv);
    FieldSnoc(init, kv, "stroke-width", ParseF32);
    FieldSnoc(init, kv, "stroke-linecap", LineCapFromStr);
    FieldSnoc(init, kv, "stroke-linejoin", LineJoinFromStr);
    FieldSnoc(init, kv, "stroke-dasharray", DashArrayFromStr);
    FieldSnoc(init, kv, "stroke-dashoffset", DashOffsetFromStr);
    FieldSnoc(init, kv, "stroke-opacity", OpacityFromStr);
    FieldSnoc(init, kv, "stroke-miterlimit", MiterLimitFromStr);
  }

  lemma FieldSnoc<T>(init: seq<Pair>, kv: Pair, k: string, parse: string -> Result<T>)
    ensures Field(init + [kv], k, parse)
              == if kv.0 == k then (match parse(kv.1) case Ok(x) => Some(x) case _ => None)
                 else Field(init, k, parse)
  {
    LastValueSnoc(init, kv);
  }

  lemma OthersSnoc(init: seq<Pair>, kv: Pair)
    ensures Others(init + [kv])
              == if IsCommonKey(kv.0) then Others(init)
                 else Some(Others(init).GetOr(map[])[kv.0 := kv.1])
  {
    if IsCommonKey(kv.0) {
      OthersSnocCommon(init, kv);
    } else {
      OthersSnocOther(init, kv);
    }
  }

  lemma OthersSnocCommon(init: seq<Pair>, kv: Pair)
    requires IsCommonKey(kv.0)
    ensures Others(init + [kv]) == Others(init)
  {
    var kvs := init + [kv];
    UnknownsSnoc(init, kv);
    AppendNil(Unknowns(init));
    assert forall i :: 0 <= i < |init| ==> kvs[i] == init[i];
  }

  lemma OthersSnocOther(init: seq<Pair>, kv: Pair)
    requires !IsCommonKey(kv.0)
    ensures Others(init + [kv]) == Some(Others(init).GetOr(map[])[kv.0 := kv.1])
  {
    var kvs := init + [kv];
    UnknownsSnoc(init, kv);
    assert !IsCommonKey(kvs[|kvs| - 1].0);
    if forall i :: 0 <= i < |init| ==> IsCommonKey(init[i].0) {
      UnknownsEmpty(init);
      ToMapSnoc([], kv);
      assert [] + [kv] == [kv];
    } else {
      ToMapSnoc(Unknowns(init), kv);
    }
  }

  lemma UnknownsSnoc(init: seq<Pair>, kv: Pair)
    ensures Unknowns(init + [kv]) == Unknowns(init) + (if IsCommonKey(kv.0) then [] else [kv])
  {
    var kvs := init + [kv];
    assert kvs[..|kvs| - 1] == init;
  }

  lemma {:induction false} UnknownsEmpty(kvs: seq<Pair>)
    requires forall i :: 0 <= i < |kvs| ==> IsCommonKey(kvs[i].0)
    ensures Unknowns(kvs) == []
    decreases |kvs|
  {
    if kvs != [] {
      UnknownsEmpty(kvs[..|kvs| - 1]);
    }
  }

  /** The pairs with unrecognised keys keep, for each such key, its last value. */
  lemma {:induction false} UnknownsLastValue(kvs: seq<Pair>, k: string)
    ensures LastValue(Unknowns(kvs), k) == if IsCommonKey(k) then None else LastValue(kvs, k)
    decreases |kvs|
  {
    if kvs != [] {
      var init := kvs[..|kvs| - 1];
      var kv := kvs[|kvs| - 1];
      assert kvs == init + [kv];
      UnknownsLastValue(init, k);
      UnknownsSnoc(init, kv);
      LastValueSnoc(init, kv);
      if IsCommonKey(kv.0) {
        AppendNil(Unknowns(init));
      } else {
        LastValueSnoc(Unknowns(init), kv);
      }
    }
  }

  /**
   * The others map holds exactly the unrecognised keys that occur, each with its
   * last value, and is absent when there are none.
   */
  lemma OthersSpec(kvs: seq<Pair>, k: string)
    ensures Others(kvs).None? <==> forall i :: 0 <= i < |kvs| ==> IsCommonKey(kvs[i].0)
    ensures Others(kvs).Some? ==>
              (k in Others(kvs).value <==> !IsCommonKey(k) && LastValue(kvs, k).Some?)
    ensures Others(kvs).Some? && k in Others(kvs).value ==>
              Others(kvs).value[k] == LastValue(kvs, k).value
  {
    UnknownsLastValue(kvs, k);
  }

  // ------------------------------------------------------------ from_str

  /**
   * `CommonKVs::from_str`: the attribute list of the trimmed input, folded. The
   * rest is what `parse_properties` left; a bad value aborts.
   */
  function CommonFromStr(s: string): (r: Parsed<(CommonKVs, Option<map<string, string>>)>)
    ensures !r.NoMatch?
    ensures r.Abort? <==> CommonFold(ParseProperties(StrTrim(s)).value).Panic?
    ensures r.Done? ==> IsSuffix(r.rest, StrTrim(s)) && Trim(ParseProperty, r.rest).NoMatch?
    ensures r.Done? ==> |r.rest| <= |s|
  {
    var p := ParseProperties(StrTrim(s));
    match CommonFold(p.value)
    case Ok(a) => Done((a.common, a.others), p.rest)
    case _ => Abort
  }

  // ------------------------------------------------------------ Display

  /** Each field as its key and, when present, its text; in the order the renderer writes them. */
  function Slots(c: CommonKVs): (r: seq<(string, Option<string>)>)
    ensures |r| == |CommonKeys|
    ensures forall i :: 0 <= i < |r| ==> r[i].0 == CommonKeys[i]
  {
    [ ("x", c.x.Map(NumText)),
      ("y", c.y.Map(NumText)),
      ("fill", c.fill),
      ("stroke", c.stroke),
      ("stroke-width", c.strokeWidth.Map(NumText)),
      ("stroke-linecap", c.lineCap.Map(LineCapText)),
      ("stroke-linejoin", c.lineJoin.Map(LineJoinText)),
      ("stroke-dasharray", c.dashArray.Map(DashArrayText)),
      ("stroke-dashoffset", c.dashOffset.Map(DashOffsetText)),
      ("stroke-opacity", c.opacity.Map(OpacityText)),
      ("stroke-miterlimit", c.miterLimit.Map(MiterLimitText)) ]
  }

  /** The pairs of the slots that hold a value, in order. */
  function Present(slots: seq<(string, Option<string>)>): seq<Pair> {
    if slots == [] then []
    else
      (if slots[0].1.Some? then [(slots[0].0, slots[0].1.value)] else []) + Present(slots[1..])
  }

  function CommonPairs(c: CommonKVs): seq<Pair> {
    Present(Slots(c))
  }

  /** `Display`: `key="value" ` for each present field, nothing for an absent one. */
  function CommonText(c: CommonKVs): string {
    RenderPairs(CommonPairs(c))
  }

  lemma EmptyCommonText()
    ensures CommonText(EmptyCommon) == ""
  {
    var s := Slots(EmptyCommon);
    assert forall i :: 0 <= i < |s| ==> s[i].1.None?;
    NonePresent(s);
  }

  lemma {:induction false} NonePresent(slots: seq<(string, Option<string>)>)
    requires forall i :: 0 <= i < |slots| ==> slots[i].1.None?
    ensures Present(slots) == []
    decreases |slots|
  {
    if slots != [] {
      NonePresent(slots[1..]);
    }
  }

  /** Every written pair comes from a slot with that key and value. */
  lemma {:induction false} PresentFrom(slots: seq<(string, Option<string>)>, j: nat)
    requires j < |Present(slots)|
    ensures exists i :: 0 <= i < |slots| && slots[i].0 == Present(slots)[j].0
                        && slots[i].1 == Some(Present(slots)[j].1)
    decreases |slots|
  {
    var head := if slots[0].1.Some? then [(slots[0].0, slots[0].1.value)] else [];
    if j < |head| {
      assert Present(slots)[j] == head[j];
    } else {
      assert Present(slots)[j] == Present(slots[1..])[j - |head|];
      PresentFrom(slots[1..], j - |head|);
      var i :| 0 <= i < |slots[1..]| && slots[1..][i].0 == Present(slots[1..])[j - |head|].0
               && slots[1..][i].1 == Some(Present(slots[1..])[j - |head|].1);
      assert slots[i + 1] == slots[1..][i];
    }
  }

  /** With distinct keys, the last value of a slot's key is the slot's value. */
  lemma {:induction false} PresentLastValue(slots: seq<(string, Option<string>)>, i: nat)
    requires i < |slots|
    requires forall a, b :: 0 <= a < b < |slots| ==> slots[a].0 != slots[b].0
    ensures LastValue(Present(slots), slots[i].0) == slots[i].1
    decreases |slots|
  {
    var k := slots[i].0;
    var head := if slots[0].1.Some? then [(slots[0].0, slots[0].1.value)] else [];
    var tail := Present(slots[1..]);
    LastValueConcat(head, tail, k);
    if i == 0 {
      assert LastValue(tail, k).None? by {
        forall j | 0 <= j < |tail|
          ensures tail[j].0 != k
        {
          PresentFrom(slots[1..], j);
          var m :| 0 <= m < |slots[1..]| && slots[1..][m].0 == tail[j].0
                   && slots[1..][m].1 == Some(tail[j].1);
          assert slots[m + 1].0 == tail[j].0;
        }
        LastValueSpec(tail, k);
      }
      if slots[0].1.Some? {
        assert head[..0] == [];
      }
    } else {
      assert slots[1..][i - 1] == slots[i];
      PresentLastValue(slots[1..], i - 1);
      if slots[0].1.Some? {
        assert head[..0] == [];
      }
    }
  }

  // ------------------------------------------------------------ round trip

  /** The fields the renderer writes so that the reader gives them back. */
  predicate WellFormedCommon(c: CommonKVs) {
    && (c.x.Some? ==> Canonical(c.x.value))
    && (c.y.Some? ==> Canonical(c.y.value))
    && (c.fill.Some? ==> QuoteFree(c.fill.value))
    && (c.stroke.Some? ==> QuoteFree(c.stroke.value))
    && (c.strokeWidth.Some? ==> Canonical(c.strokeWidth.value))
    && (c.dashArray.Some? ==>
          forall i :: 0 <= i < |c.dashArray.value.values| ==> Canonical(c.dashArray.value.values[i]))
    && (c.dashOffset.Some? ==> Canonical(c.dashOffset.value.value))
    && (c.opacity.Some? ==> Canonical(c.opacity.value.value) && InRange(c.opacity.value.value))
    && (c.miterLimit.Some? ==> Canonical(c.miterLimit.value.value))
  }

  lemma CommonKeysDistinct()
    ensures forall a, b :: 0 <= a < b < |CommonKeys| ==> CommonKeys[a] != CommonKeys[b]
    ensures forall i :: 0 <= i < |CommonKeys| ==> IsKey(CommonKeys[i], '-')
  {
  }

  /** A rendered number is a valid quoted value. */
  lemma NumTextQuoteFree(n: Num)
    ensures QuoteFree(NumText(n))
  {
    NumTextChars(n);
  }

  /** A rendered number is a valid value of each numeric key. */
  lemma NumSlotValid(k: string, n: Num)
    requires k == "x" || k == "y" || k == "stroke-width"
    requires Canonical(n)
    ensures ValueParses((k, NumText(n))) && QuoteFree(NumText(n))
  {
    ParseF32RoundTrip(n);
    NumTextQuoteFree(n);
  }

  lemma LineCapSlotValid(c: LineCap)
    ensures ValueParses(("stroke-linecap", LineCapText(c))) && QuoteFree(LineCapText(c))
  {
    LineCapRoundTrip(c);
  }

  lemma LineJoinSlotValid(j: LineJoin)
    ensures ValueParses(("stroke-linejoin", LineJoinText(j))) && QuoteFree(LineJoinText(j))
  {
    LineJoinRoundTrip(j);
  }

  lemma DashArraySlotValid(d: DashArray)
    requires forall i :: 0 <= i < |d.values| ==> Canonical(d.values[i])
    ensures ValueParses(("stroke-dasharray", DashArrayText(d))) && QuoteFree(DashArrayText(d))
  {
    DashArrayRoundTrip(d);
    forall j | 0 <= j < |Texts(d.values)|
      ensures QuoteFree(Texts(d.values)[j])
    {
      NumTextQuoteFree(d.values[j]);
    }
    JoinQuoteFree(Texts(d.values));
  }

  lemma DashOffsetSlotValid(d: DashOffset)
    requires Canonical(d.value)
    ensures ValueParses(("stroke-dashoffset", DashOffsetText(d))) && QuoteFree(DashOffsetText(d))
  {
    DashOffsetRoundTrip(d);
    NumTextQuoteFree(d.value);
  }

  lemma OpacitySlotValid(o: Opacity)
    requires Canonical(o.value) && InRange(o.value)
    ensures ValueParses(("stroke-opacity", OpacityText(o))) && QuoteFree(OpacityText(o))
  {
    OpacityRoundTrip(o.value);
    NumTextQuoteFree(o.value);
  }

  lemma MiterLimitSlotValid(m: MiterLimit)
    requires Canonical(m.value)
    ensures ValueParses(("stroke-miterlimit", MiterLimitText(m))) && QuoteFree(MiterLimitText(m))
  {
    MiterLimitRoundTrip(m);
    NumTextQuoteFree(m.value);
  }

  /** Each present slot of a well-formed value reads back as the field it came from. */
  lemma SlotReadsBack(c: CommonKVs, i: nat)
    requires WellFormedCommon(c)
    requires i < |CommonKeys| && Slots(c)[i].1.Some?
    ensures ValueParses((CommonKeys[i], Slots(c)[i].1.value))
    ensures QuoteFree(Slots(c)[i].1.value)
  {
    if i == 0 {
      NumSlotValid("x", c.x.value);
    } else if i == 1 {
      NumSlotValid("y", c.y.value);
    } else if i == 2 || i == 3 {
      assert ValueParses((CommonKeys[i], Slots(c)[i].1.value));
    } else if i == 4 {
      NumSlotValid("stroke-width", c.strokeWidth.value);
    } else if i == 5 {
      LineCapSlotValid(c.lineCap.value);
    } else if i == 6 {
      LineJoinSlotValid(c.lineJoin.value);
    } else if i == 7 {
      DashArraySlotValid(c.dashArray.value);
    } else if i == 8 {
      DashOffsetSlotValid(c.dashOffset.value);
    } else if i == 9 {
      OpacitySlotValid(c.opacity.value);
    } else {
      MiterLimitSlotValid(c.miterLimit.value);
    }
  }

  /** Every written pair has a recognised key, a value that parses, and no quote in it. */
  lemma CommonPairsValid(c: CommonKVs)
    requires WellFormedCommon(c)
    ensures ValidPairs(CommonPairs(c))
    ensures forall j :: 0 <= j < |CommonPairs(c)| ==> ValueParses(CommonPairs(c)[j])
    ensures forall j :: 0 <= j < |CommonPairs(c)| ==> IsCommonKey(CommonPairs(c)[j].0)
  {
    var slots := Slots(c);
    var ps := CommonPairs(c);
    CommonKeysDistinct();
    forall j | 0 <= j < |ps|
      ensures ValidPair(ps[j]) && ValueParses(ps[j]) && IsCommonKey(ps[j].0)
    {
      PresentFrom(slots, j);
      var i :| 0 <= i < |slots| && slots[i].0 == ps[j].0 && slots[i].1 == Some(ps[j].1);
      SlotReadsBack(c, i);
      assert ps[j] == (CommonKeys[i], slots[i].1.value);
    }
  }

  /** The last value of each recognised key in the written pairs is that field's text. */
  lemma CommonPairsLast(c: CommonKVs, i: nat)
    requires i < |CommonKeys|
    ensures LastValue(CommonPairs(c), CommonKeys[i]) == Slots(c)[i].1
  {
    CommonKeysDistinct();
    PresentLastValue(Slots(c), i);
  }

  /** A field whose last text reads back as the field's value. */
  lemma FieldReadsBack<T>(kvs: seq<Pair>, k: string, parse: string -> Result<T>,
                          render: T -> string, o: Option<T>)
    requires LastValue(kvs, k) == o.Map(render)
    requires o.Some? ==> parse(render(o.value)) == Ok(o.value)
    ensures Field(kvs, k, parse) == o
  {
  }

  /** A slot whose text reads back as the field's value, read from the written pairs. */
  lemma SlotFieldReadsBack<T>(c: CommonKVs, i: nat, parse: string -> Result<T>,
                              render: T -> string, o: Option<T>)
    requires i < |CommonKeys| && Slots(c)[i].1 == o.Map(render)
    requires o.Some? ==> parse(render(o.value)) == Ok(o.value)
    ensures Field(CommonPairs(c), CommonKeys[i], parse) == o
  {
    CommonPairsLast(c, i);
    FieldReadsBack(CommonPairs(c), CommonKeys[i], parse, render, o);
  }

  lemma XReadsBack(c: CommonKVs)
    requires WellFormedCommon(c)
    ensures Field(CommonPairs(c), "x", ParseF32) == c.x
  {
    if c.x.Some? {
      ParseF32RoundTrip(c.x.value);
    }
    SlotFieldReadsBack(c, 0, ParseF32, NumText, c.x);
  }

  lemma YReadsBack(c: CommonKVs)
    requires WellFormedCommon(c)
    ensures Field(CommonPairs(c), "y", ParseF32) == c.y
  {
    if c.y.Some? {
      ParseF32RoundTrip(c.y.value);
    }
    SlotFieldReadsBack(c, 1, ParseF32, NumText, c.y);
  }

  lemma StrokeWidthReadsBack(c: CommonKVs)
    requires WellFormedCommon(c)
    ensures Field(CommonPairs(c), "stroke-width", ParseF32) == c.strokeWidth
  {
    if c.strokeWidth.Some? {
      ParseF32RoundTrip(c.strokeWidth.value);
    }
    SlotFieldReadsBack(c, 4, ParseF32, NumText, c.strokeWidth);
  }

  lemma LineCapReadsBack(c: CommonKVs)
    requires WellFormedCommon(c)
    ensures Field(CommonPairs(c), "stroke-linecap", LineCapFromStr) == c.lineCap
  {
    if c.lineCap.Some? {
      LineCapRoundTrip(c.lineCap.value);
    }
    SlotFieldReadsBack(c, 5, LineCapFromStr, LineCapText, c.lineCap);
  }

  lemma LineJoinReadsBack(c: CommonKVs)
    requires WellFormedCommon(c)
    ensures Field(CommonPairs(c), "stroke-linejoin", LineJoinFromStr) == c.lineJoin
  {
    if c.lineJoin.Some? {
      LineJoinRoundTrip(c.lineJoin.value);
    }
    SlotFieldReadsBack(c, 6, LineJoinFromStr, LineJoinText, c.lineJoin);
  }

  lemma DashArrayReadsBack(c: CommonKVs)
    requires WellFormedCommon(c)
    ensures Field(CommonPairs(c), "stroke-dasharray", DashArrayFromStr) == c.dashArray
  {
    DashArrayOptionRoundTrip(c.dashArray);
    SlotFieldReadsBack(c, 7, DashArrayFromStr, DashArrayText, c.dashArray);
  }

  lemma DashArrayOptionRoundTrip(o: Option<DashArray>)
    requires o.Some? ==> forall i :: 0 <= i < |o.value.values| ==> Canonical(o.value.values[i])
    ensures o.Some? ==> DashArrayFromStr(DashArrayText(o.value)) == Ok(o.value)
  {
    if o.Some? {
      DashArrayRoundTrip(o.value);
    }
  }

  lemma DashOffsetReadsBack(c: CommonKVs)
    requires WellFormedCommon(c)
    ensures Field(CommonPairs(c), "stroke-dashoffset", DashOffsetFromStr) == c.dashOffset
  {
    if c.dashOffset.Some? {
      DashOffsetRoundTrip(c.dashOffset.value);
    }
    SlotFieldReadsBack(c, 8, DashOffsetFromStr, DashOffsetText, c.dashOffset);
  }

  lemma OpacityReadsBack(c: CommonKVs)
    requires WellFormedCommon(c)
    ensures Field(CommonPairs(c), "stroke-opacity", OpacityFromStr) == c.opacity
  {
    if c.opacity.Some? {
      OpacityRoundTrip(c.opacity.value.value);
    }
    SlotFieldReadsBack(c, 9, OpacityFromStr, OpacityText, c.opacity);
  }

  lemma MiterLimitReadsBack(c: CommonKVs)
    requires WellFormedCommon(c)
    ensures Field(CommonPairs(c), "stroke-miterlimit", MiterLimitFromStr) == c.miterLimit
  {
    if c.miterLimit.Some? {
      MiterLimitRoundTrip(c.miterLimit.value);
    }
    SlotFieldReadsBack(c, 10, MiterLimitFromStr, MiterLimitText, c.miterLimit);
  }

  /** The numeric and text fields read back from the written pairs. */
  lemma PlainFieldsReadBack(c: CommonKVs)
    requires WellFormedCommon(c)
    ensures Field(CommonPairs(c), "x", ParseF32) == c.x
    ensures Field(CommonPairs(c), "y", ParseF32) == c.y
    ensures LastValue(CommonPairs(c), "fill") == c.fill
    ensures LastValue(CommonPairs(c), "stroke") == c.stroke
    ensures Field(CommonPairs(c), "stroke-width", ParseF32) == c.strokeWidth
  {
    XReadsBack(c);
    YReadsBack(c);
    CommonPairsLast(c, 2);
    CommonPairsLast(c, 3);
    StrokeWidthReadsBack(c);
  }

  /** The stroke fields read back from the written pairs. */
  lemma StrokeFieldsReadBack(c: CommonKVs)
    requires WellFormedCommon(c)
    ensures Field(CommonPairs(c), "stroke-linecap", LineCapFromStr) == c.lineCap
    ensures Field(CommonPairs(c), "stroke-linejoin", LineJoinFromStr) == c.lineJoin
    ensures Field(CommonPairs(c), "stroke-dasharray", DashArrayFromStr) == c.dashArray
  {
    LineCapReadsBack(c);
    LineJoinReadsBack(c);
    DashArrayReadsBack(c);
  }

  /** The numeric stroke fields read back from the written pairs. */
  lemma StrokeNumbersReadBack(c: CommonKVs)
    requires WellFormedCommon(c)
    ensures Field(CommonPairs(c), "stroke-dashoffset", DashOffsetFromStr) == c.dashOffset
    ensures Field(CommonPairs(c), "stroke-opacity", OpacityFromStr) == c.opacity
    ensures Field(CommonPairs(c), "stroke-miterlimit", MiterLimitFromStr) == c.miterLimit
  {
    DashOffsetReadsBack(c);
    OpacityReadsBack(c);
    MiterLimitReadsBack(c);
  }

  /** The fields of a well-formed value, written out and read back by the loop, are unchanged. */
  lemma CommonFoldRoundTrip(c: CommonKVs)
    requires WellFormedCommon(c)
    ensures CommonFold(CommonPairs(c)) == Ok(Acc(c, None))
  {
    var ps := CommonPairs(c);
    CommonPairsValid(c);
    CommonFoldMatches(ps);
    PlainFieldsReadBack(c);
    StrokeFieldsReadBack(c);
    StrokeNumbersReadBack(c);
    FromPairsOf(ps, c);
  }

  /** The reference result of pairs that all parse, all recognised, whose fields are those of `c`. */
  lemma FromPairsOf(kvs: seq<Pair>, c: CommonKVs)
    requires forall i :: 0 <= i < |kvs| ==> ValueParses(kvs[i])
    requires forall i :: 0 <= i < |kvs| ==> IsCommonKey(kvs[i].0)
    requires Field(kvs, "x", ParseF32) == c.x && Field(kvs, "y", ParseF32) == c.y
    requires LastValue(kvs, "fill") == c.fill && LastValue(kvs, "stroke") == c.stroke
    requires Field(kvs, "stroke-width", ParseF32) == c.strokeWidth
    requires Field(kvs, "stroke-linecap", LineCapFromStr) == c.lineCap
    requires Field(kvs, "stroke-linejoin", LineJoinFromStr) == c.lineJoin
    requires Field(kvs, "stroke-dasharray", DashArrayFromStr) == c.dashArray
    requires Field(kvs, "stroke-dashoffset", DashOffsetFromStr) == c.dashOffset
    requires Field(kvs, "stroke-opacity", OpacityFromStr) == c.opacity
    requires Field(kvs, "stroke-miterlimit", MiterLimitFromStr) == c.miterLimit
    ensures CommonFromPairs(kvs) == Ok(Acc(c, None))
  {
    assert Others(kvs) == None;
    assert CommonFields(kvs) == c;
  }

  /** Rendered pairs whose fold succeeds read back through `CommonKVs::from_str`. */
  lemma FromStrOfPairs(ps: seq<Pair>, t: string, a: Acc)
    requires ValidPairs(ps)
    requires |t| > 0 && !IsWhitespace(t[0]) && !IsAlphanumeric(t[0])
    requires !IsWhitespace(t[|t| - 1])
    requires CommonFold(ps) == Ok(a)
    ensures CommonFromStr(RenderPairs(ps) + t) == Done((a.common, a.others), t)
  {
    PairsRead(ps, t);
    ReadPairsFold(RenderPairs(ps) + t, ps, t, a);
  }

  /** Written pairs before such a tail are already trimmed and read back whole. */
  lemma PairsRead(ps: seq<Pair>, t: string)
    requires ValidPairs(ps)
    requires |t| > 0 && !IsWhitespace(t[0]) && !IsAlphanumeric(t[0])
    requires !IsWhitespace(t[|t| - 1])
    ensures StrTrim(RenderPairs(ps) + t) == RenderPairs(ps) + t
    ensures ParseProperties(RenderPairs(ps) + t) == Done(ps, t)
  {
    PairsTrimmed(ps, t);
    SkipMultispaceNoop(t);
    ParsePropertiesRoundTrip(ps, t);
  }

  lemma PairsTrimmed(ps: seq<Pair>, t: string)
    requires ValidPairs(ps)
    requires |t| > 0 && !IsWhitespace(t[0])
    requires !IsWhitespace(t[|t| - 1])
    ensures StrTrim(RenderPairs(ps) + t) == RenderPairs(ps) + t
  {
    var s := RenderPairs(ps) + t;
    if ps != [] {
      RenderPairsHead(ps, t);
    } else {
      assert s == t;
    }
    StrTrimNoop(s);
  }

  lemma ReadPairsFold(s: string, ps: seq<Pair>, t: string, a: Acc)
    requires StrTrim(s) == s && ParseProperties(s) == Done(ps, t)
    requires CommonFold(ps) == Ok(a)
    ensures CommonFromStr(s) == Done((a.common, a.others), t)
  {
  }

  /**
   * Reading the attributes back: a well-formed value written by `Display`, followed
   * by text that cannot continue an attribute list, is read as the same value with
   * no other attributes, and the reader stops exactly at that text.
   */
  lemma CommonRoundTrip(c: CommonKVs, t: string)
    requires WellFormedCommon(c)
    requires |t| > 0 && !IsWhitespace(t[0]) && !IsAlphanumeric(t[0])
    requires !IsWhitespace(t[|t| - 1])
    ensures CommonFromStr(CommonText(c) + t) == Done((c, None), t)
  {
    CommonPairsValid(c);
    CommonFoldRoundTrip(c);
    FromStrOfPairs(CommonPairs(c), t, Acc(c, None));
  }
}
