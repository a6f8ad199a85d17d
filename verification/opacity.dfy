/** `stroke-opacity` (`src/children/common/opacity.rs`): a float in `[0, 1]` */
module OpacityValue {
  import opened Wrappers
  import opened Text
  import opened Decimal
  import opened Float

  datatype Opacity = Opacity(value: Num)

  /** `Default`: fully opaque */
  const DefaultOpacity: Opacity := Opacity(FromInt(1))

  predicate InRange(n: Num) {
    !LessThanInt(n, 0) && !GreaterThanInt(n, 1)
  }

  /**
   * `FromStr`: trims, parses a float (a bad float aborts), and refuses a value
   * outside `[0, 1]` with a message that quotes it.
   */
  function OpacityFromStr(s: string): (r: Result<Opacity>)
    ensures r.Panic? <==> ParseF32Trimmed(s).Panic?
    ensures r.Ok? ==> r.value.value == ParseF32Trimmed(s).value && InRange(r.value.value)
    ensures r.Err? ==> !InRange(ParseF32Trimmed(s).value)
                       && r.msg == "Invalid opacity value: " + NumText(ParseF32Trimmed(s).value)
  {
    match ParseF32Trimmed(s)
    case Ok(f) =>
      if LessThanInt(f, 0) || GreaterThanInt(f, 1) then
        Err("Invalid opacity value: " + NumText(f))
      else
        Ok(Opacity(f))
    case _ => Panic
  }

  /** `Display` */
  function OpacityText(o: Opacity): string {
    NumText(o.value)
  }

  /** An opacity in range reads back from its text; one out of range is refused. */
  lemma OpacityRoundTrip(n: Num)
    requires Canonical(n)
    ensures InRange(n) ==> OpacityFromStr(OpacityText(Opacity(n))) == Ok(Opacity(n))
    ensures !InRange(n) ==> OpacityFromStr(OpacityText(Opacity(n)))
                              == Err("Invalid opacity value: " + NumText(n))
  {
    ParseF32TrimmedRoundTrip(n);
  }
}
