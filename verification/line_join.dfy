/** `stroke-linejoin` (`src/children/common/line_join.rs`) */
module LineJoinValue {
  import opened Wrappers

  datatype LineJoin = Arcs | Miter | Round | Bevel | MiterClip

  /** `Default` */
  const DefaultLineJoin: LineJoin := Miter

  /** `FromStr`: the exact keyword; anything else is an error with an empty message. */
  function LineJoinFromStr(s: string): (r: Result<LineJoin>)
    ensures !r.Panic?
    ensures r.Err? ==> r.msg == ""
  {
    match s
    case "arcs" => Ok(Arcs)
    case "miter" => Ok(Miter)
    case "round" => Ok(Round)
    case "bevel" => Ok(Bevel)
    case "miter-clip" => Ok(MiterClip)
    case _ => Err("")
  }

  /** `Display` */
  function LineJoinText(j: LineJoin): string {
    match j
    case Arcs => "arcs"
    case Miter => "miter"
    case Round => "round"
    case Bevel => "bevel"
    case MiterClip => "miter-clip"
  }

  /** Every line join reads back from its text. */
  lemma LineJoinRoundTrip(j: LineJoin)
    ensures LineJoinFromStr(LineJoinText(j)) == Ok(j)
  {
  }

  /** Only the five keywords are accepted, and each is written back unchanged. */
  lemma LineJoinAccepts(s: string)
    ensures LineJoinFromStr(s).Ok? <==>
              s == "arcs" || s == "miter" || s == "round" || s == "bevel" || s == "miter-clip"
    ensures LineJoinFromStr(s).Ok? ==> LineJoinText(LineJoinFromStr(s).value) == s
  {
  }
}
