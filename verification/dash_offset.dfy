/** `stroke-dashoffset` (`src/children/common/dash_offset.rs`) */
module DashOffsetValue {
  import opened Wrappers
  import opened Text
  import opened Decimal
  import opened Float

  datatype DashOffset = DashOffset(value: Num)

  /** `Default` */
  const DefaultDashOffset: DashOffset := DashOffset(FromInt(0))

  /** `FromStr`: trims and parses a float; a bad float aborts. */
  function DashOffsetFromStr(s: string): (r: Result<DashOffset>)
    ensures !r.Err?
    ensures r.Ok? <==> ParseF32(StrTrim(s)).Ok?
    ensures r.Ok? ==> r.value.value == ParseF32(StrTrim(s)).value
  {
    match ParseF32Trimmed(s)
    case Ok(f) => Ok(DashOffset(f))
    case _ => Panic
  }

  /** `Display` */
  function DashOffsetText(d: DashOffset): string {
    NumText(d.value)
  }

  lemma DashOffsetRoundTrip(d: DashOffset)
    requires Canonical(d.value)
    ensures DashOffsetFromStr(DashOffsetText(d)) == Ok(d)
  {
    ParseF32TrimmedRoundTrip(d.value);
  }
}
