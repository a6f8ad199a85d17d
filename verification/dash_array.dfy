/** `stroke-dasharray` (`src/children/common/dash_array.rs`): a list of floats */
module DashArrayValue {
  import opened Wrappers
  import opened Text
  import opened Decimal
  import opened Float

  datatype DashArray = DashArray(values: seq<Num>)

  /** `Default`: the empty list */
  const DefaultDashArray: DashArray := DashArray([])

  /** Each token parsed as a float; the first one that is not a float aborts. */
  function ParseAll(toks: seq<string>): (r: Result<seq<Num>>)
    ensures !r.Err?
    ensures r.Ok? <==> forall i :: 0 <= i < |toks| ==> ParseF32(toks[i]).Ok?
    ensures r.Ok? ==> |r.value| == |toks|
    ensures r.Ok? ==> forall i :: 0 <= i < |toks| ==> r.value[i] == ParseF32(toks[i]).value
  {
    if toks == [] then Ok([])
    else
      match ParseF32(toks[0])
      case Ok(f) =>
        (match ParseAll(toks[1..])
         case Ok(fs) => Ok([f] + fs)
         case _ => Panic)
      case _ => Panic
  }

  /**
   * `FromStr`: trims, splits at whitespace and parses every token. The source's
   * filter of empty tokens keeps every token, since `split_whitespace` yields
   * none.
   */
  function DashArrayFromStr(s: string): (r: Result<DashArray>)
    ensures !r.Err?
    ensures var toks := SplitWhitespace(StrTrim(s));
            && (r.Ok? <==> forall i :: 0 <= i < |toks| ==> ParseF32(toks[i]).Ok?)
            && (r.Ok? ==> |r.value.values| == |toks|
                          && forall i :: 0 <= i < |toks| ==> r.value.values[i] == ParseF32(toks[i]).value)
  {
    match ParseAll(SplitWhitespace(StrTrim(s)))
    case Ok(fs) => Ok(DashArray(fs))
    case _ => Panic
  }

  function Texts(ns: seq<Num>): (r: seq<string>)
    ensures |r| == |ns|
  {
    seq(|ns|, i requires 0 <= i < |ns| => NumText(ns[i]))
  }

  /** `Display`: the numbers separated by single spaces. */
  function DashArrayText(d: DashArray): string {
    Join(Texts(d.values), " ")
  }

  /** A list of numbers reads back from its text. */
  lemma DashArrayRoundTrip(d: DashArray)
    requires forall i :: 0 <= i < |d.values| ==> Canonical(d.values[i])
    ensures DashArrayFromStr(DashArrayText(d)) == Ok(d)
  {
    TextsAreTokens(d.values);
    TextsTrimmed(d.values);
    SplitJoin(Texts(d.values));
  }

  /** Each rendered number is a whitespace-free token that reads back as itself. */
  lemma TextsAreTokens(ns: seq<Num>)
    requires forall i :: 0 <= i < |ns| ==> Canonical(ns[i])
    ensures forall i :: 0 <= i < |ns| ==> |Texts(ns)[i]| > 0 && NoWhitespace(Texts(ns)[i])
    ensures ParseAll(Texts(ns)) == Ok(ns)
  {
    var toks := Texts(ns);
    forall i | 0 <= i < |toks|
      ensures |toks[i]| > 0 && NoWhitespace(toks[i])
      ensures ParseF32(toks[i]) == Ok(ns[i])
    {
      NumTextHead(ns[i]);
      NumTextChars(ns[i]);
      ParseF32RoundTrip(ns[i]);
    }
    assert ParseAll(toks).Ok?;
    assert ParseAll(toks).value == ns;
  }

  /** The joined text has no surrounding whitespace. */
  lemma TextsTrimmed(ns: seq<Num>)
    ensures StrTrim(Join(Texts(ns), " ")) == Join(Texts(ns), " ")
  {
    var toks := Texts(ns);
    if toks != [] {
      NumTextEdges(ns[0]);
      NumTextEdges(ns[|ns| - 1]);
      assert toks[0] == NumText(ns[0]) && toks[|toks| - 1] == NumText(ns[|ns| - 1]);
    }
    JoinTrimmed(toks);
  }

  /** Parts that start and end with no whitespace, joined by spaces, are already trimmed. */
  lemma JoinTrimmed(toks: seq<string>)
    requires toks != [] ==> |toks[0]| > 0 && !IsWhitespace(toks[0][0])
    requires toks != [] ==> var last := toks[|toks| - 1]; |last| > 0 && !IsWhitespace(last[|last| - 1])
    ensures StrTrim(Join(toks, " ")) == Join(toks, " ")
  {
    if toks != [] {
      JoinHead(toks);
      JoinLast(toks);
    }
    StrTrimNoop(Join(toks, " "));
  }
}
