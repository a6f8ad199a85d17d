/**
 * `Z` (`src/children/path/close_path.rs`): close the current subpath. The reader
 * records whether the letter was lower-case; the renderer ignores that and
 * always writes `Z`, which SVG 1.1 section 8.3.3 treats the same as `z`.
 */
module ClosePathCommand {
  import opened Wrappers
  import opened Text

  datatype Z = Z(relative: bool)

  /** `Z::from_str`: exactly one `z` or `Z`, with no whitespace skipped. */
  function ZFromStr(s: string): (r: Parsed<Z>)
    ensures !r.Abort?
    ensures r.Done? <==> |s| > 0 && (s[0] == 'z' || s[0] == 'Z')
    ensures r.Done? ==> r.value.relative == (s[0] == 'z') && r.rest == s[1..]
  {
    if |s| > 0 && s[0] == 'z' then Done(Z(true), s[1..])
    else if |s| > 0 && s[0] == 'Z' then Done(Z(false), s[1..])
    else NoMatch
  }

  /** `Display`: always `Z`. */
  function ZText(z: Z): string {
    "Z"
  }

  /** Reading a rendered `Z` gives the absolute form, whatever the original was. */
  lemma ZRoundTrip(z: Z, t: string)
    ensures ZFromStr(ZText(z) + t) == Done(Z(false), t)
  {
    assert (ZText(z) + t)[0] == 'Z';
    assert (ZText(z) + t)[1..] == t;
  }

  /** So the relative form does not survive rendering and reading back. */
  lemma ZRelativeLost()
    ensures ZFromStr(ZText(Z(true))) != Done(Z(true), "")
  {
    ZRoundTrip(Z(true), "");
    assert ZText(Z(true)) + "" == ZText(Z(true));
  }

  /** Leading whitespace is not skipped. */
  lemma ZNoLeadingSpace(s: string)
    ensures ZFromStr(" " + s).NoMatch?
  {
    assert (" " + s)[0] == ' ';
  }

  /** The crate's own test cases. */
  lemma ZExamples()
    ensures ZFromStr("Z") == Done(Z(false), "")
    ensures ZFromStr("z") == Done(Z(true), "")
  {
  }
}
