/**
 * `Path` (`src/children/path.rs`): a `<path>` element. Its `d` attribute is kept
 * as raw text; no path-data parser reads it.
 */
module PathElement {
  import opened Wrappers
  import opened Text
  import opened Parser
  import opened Attributes
  import opened Common
  import opened ShapeAttributes

  datatype Path = Path(common: CommonKVs, d: Option<string>)

  /** `Default` */
  const EmptyPath := Path(EmptyCommon, None)

  /**
   * `Path::from_str`: the attributes after `<path`. `d` comes from the others map
   * as it stands; a bad common value aborts.
   */
  function PathFromStr(s: string): (r: Parsed<Path>)
    ensures !r.NoMatch?
    ensures r.Done? ==> |r.rest| <= |s|
  {
    match CommonFromStr(StrTrim(s))
    case Done((common, kvs), rest) =>
      if kvs.None? then Done(Path(common, None), rest)
      else Done(Path(common, Lookup(kvs.value, "d")), rest)
    case _ => Abort
  }

  /**
   * What `from_str` reads: `d` is the text of the last `d` attribute, present
   * exactly when one occurs, and the common attributes and the rest are those of
   * `CommonKVs::from_str`.
   */
  lemma PathFromStrSpec(s: string)
    ensures PathFromStr(s).Abort? <==> CommonFromStr(StrTrim(s)).Abort?
    ensures PathFromStr(s).Done? ==>
              var q := CommonFromStr(StrTrim(s));
              && PathFromStr(s).value.d == LastValue(AttrList(s), "d")
              && PathFromStr(s).value.common == q.value.0
              && PathFromStr(s).rest == q.rest
  {
    var q := CommonFromStr(StrTrim(s));
    if q.Done? {
      PathFromStrOf(s, q.value.0, q.value.1, q.rest);
      OwnKeys();
      OtherValueIsLast(s, "d");
    }
  }

  lemma PathFromStrOf(s: string, c: CommonKVs, kvs: Option<map<string, string>>, rest: string)
    requires CommonFromStr(StrTrim(s)) == Done((c, kvs), rest)
    ensures PathFromStr(s) == Done(Path(c, OtherValue(kvs, "d")), rest)
  {
  }

  /** Any `d` attribute in the list gives a present `d`, whatever else occurs. */
  lemma PathDPresent(s: string, i: nat)
    requires PathFromStr(s).Done?
    requires i < |AttrList(s)| && AttrList(s)[i].0 == "d"
    ensures PathFromStr(s).value.d.Some?
  {
    PathFromStrSpec(s);
    LastValueSpec(AttrList(s), "d");
  }

  /** `d` as the renderer writes it: empty when absent. */
  function DText(p: Path): string {
    p.d.GetOr("")
  }

  function PathPairs(p: Path): seq<Pair> {
    [("d", DText(p))] + CommonPairs(p.common)
  }

  /** The attribute text between `<path` and `/>`: `d`, the common attributes, a space. */
  function PathBody(p: Path): string {
    " " + RenderPairs(PathPairs(p)) + " "
  }

  /**
   * `Display`: `<path d="D" COMMON />`. Each attribute is written as `key="value"`
   * and a space, so this is `<path`, the body, and `/>`.
   */
  function PathText(p: Path): string {
    "<path" + PathBody(p) + "/>"
  }

  /**
   * A written path with well-formed common attributes reads back with the same
   * common attributes and `d`; an absent `d` comes back as the empty text.
   */
  lemma PathReadBack(p: Path, t: string)
    requires WellFormedCommon(p.common) && QuoteFree(DText(p))
    requires |t| > 0 && !IsWhitespace(t[0]) && !IsAlphanumeric(t[0]) && !IsWhitespace(t[|t| - 1])
    ensures PathFromStr(PathBody(p) + t) == Done(Path(p.common, Some(DText(p))), t)
  {
    var own := [("d", DText(p))];
    OwnKeysValid();
    OwnKeys();
    ShapeReadBack(own, p.common, " ", t);
  }
}
