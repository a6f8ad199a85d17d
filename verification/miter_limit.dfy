/** `stroke-miterlimit` (`src/children/common/miter_limit.rs`) */
module MiterLimitValue {
  import opened Wrappers
  import opened Text
  import opened Decimal
  import opened Float

  datatype MiterLimit = MiterLimit(value: Num)

  /** `Default` */
  const DefaultMiterLimit: MiterLimit := MiterLimit(FromInt(4))

  /** `FromStr`: trims and parses a float; a bad float aborts. */
  function MiterLimitFromStr(s: string): (r: Result<MiterLimit>)
    ensures !r.Err?
    ensures r.Ok? <==> ParseF32(StrTrim(s)).Ok?
    ensures r.Ok? ==> r.value.value == ParseF32(StrTrim(s)).value
  {
    match ParseF32Trimmed(s)
    case Ok(f) => Ok(MiterLimit(f))
    case _ => Panic
  }

  /** `Display` */
  function MiterLimitText(d: MiterLimit): string {
    NumText(d.value)
  }

  lemma MiterLimitRoundTrip(d: MiterLimit)
    requires Canonical(d.value)
    ensures MiterLimitFromStr(MiterLimitText(d)) == Ok(d)
  {
    ParseF32TrimmedRoundTrip(d.value);
  }
}
