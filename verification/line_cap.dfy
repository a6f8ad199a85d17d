/** `stroke-linecap` (`src/children/common/line_cap.rs`) */
module LineCapValue {
  import opened Wrappers

  datatype LineCap = Butt | Round | Square

  /** `Default` */
  const DefaultLineCap: LineCap := Butt

  /** `FromStr`: the exact keyword; anything else is an error with an empty message. */
  function LineCapFromStr(s: string): (r: Result<LineCap>)
    ensures !r.Panic?
    ensures r.Err? ==> r.msg == ""
  {
    match s
    case "butt" => Ok(Butt)
    case "round" => Ok(Round)
    case "square" => Ok(Square)
    case _ => Err("")
  }

  /** `Display` */
  function LineCapText(c: LineCap): string {
    match c
    case Butt => "butt"
    case Round => "round"
    case Square => "square"
  }

  /** Every line cap reads back from its text. */
  lemma LineCapRoundTrip(c: LineCap)
    ensures LineCapFromStr(LineCapText(c)) == Ok(c)
  {
  }

  /** Only the three keywords are accepted, and each is written back unchanged. */
  lemma LineCapAccepts(s: string)
    ensures LineCapFromStr(s).Ok? <==> s == "butt" || s == "round" || s == "square"
    ensures LineCapFromStr(s).Ok? ==> LineCapText(LineCapFromStr(s).value) == s
  {
  }
}
