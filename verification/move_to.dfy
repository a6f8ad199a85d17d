/**
 * `M` (`src/children/path/move_to.rs`): move the current point to `x,y`, relative
 * to the previous point when the letter is `m`.
 */
module MoveToCommand {
  import opened Wrappers
  import opened Text
  import opened Decimal
  import opened Float
  import opened Parser
  import opened PathArgs

  datatype M = M(x: Num, y: Num, relative: bool)

  /** `alt((tag("m"), tag("M")))` */
  function MLetter(s: string): Parsed<bool> {
    LetterParse('m', 'M', s)
  }

  /** `pair(trim(alt(..)), point)`: the letter, then the two coordinates. */
  function MPair(s: string): (r: Parsed<M>)
    ensures !r.Abort?
    ensures r.Done? ==> IsSuffix(r.rest, s) && Canonical(r.value.x) && Canonical(r.value.y)
    ensures var u := SkipMultispace(s);
            r.Done? ==> |u| > 0 && (u[0] == 'm' || u[0] == 'M') && r.value.relative == (u[0] == 'm')
    ensures var u := SkipMultispace(s);
            (u == [] || (u[0] != 'm' && u[0] != 'M')) ==> r.NoMatch?
  {
    match Trim(MLetter, s)
    case Done(relative, rest) =>
      SuffixDrop(SkipMultispace(s), 1);
      SuffixTrans(SkipMultispace(s)[1..], SkipMultispace(s), s);
      SuffixTrans(rest, SkipMultispace(s)[1..], s);
      (match Point(rest)
       case Done(p, rest') =>
         SuffixTrans(rest', rest, s);
         Done(M(p.0, p.1, relative), rest')
       case _ => NoMatch)
    case _ => NoMatch
  }

  /**
   * `M::from_str`: whitespace, `m` or `M`, whitespace, a point, whitespace. The
   * command is relative exactly when the letter is `m`; any other first letter
   * does not match.
   */
  function MFromStr(s: string): (r: Parsed<M>)
    ensures !r.Abort?
    ensures var u := SkipMultispace(s);
            r.Done? ==> |u| > 0 && (u[0] == 'm' || u[0] == 'M') && r.value.relative == (u[0] == 'm')
    ensures var u := SkipMultispace(s);
            (u == [] || (u[0] != 'm' && u[0] != 'M')) ==> r.NoMatch?
    ensures r.Done? ==> Canonical(r.value.x) && Canonical(r.value.y)
    ensures r.Done? ==> IsSuffix(r.rest, s) && (r.rest == [] || !IsMultispace(r.rest[0]))
  {
    var u := SkipMultispace(s);
    SkipMultispaceIdem(s);
    var r := Trim(MPair, s);
    if r.Done? then
      SuffixTrans(MPair(u).rest, u, s);
      SuffixTrans(r.rest, MPair(u).rest, s);
      r
    else r
  }

  function MArgs(m: M): seq<Arg> {
    [Coord(m.x, m.y)]
  }

  /** `Display`: `M x,y`, or `m x,y` when relative. */
  function MText(m: M): string {
    CommandLine('m', 'M', m.relative, MArgs(m))
  }

  /** The letter step of `MPair` on text that starts with the letter and a space. */
  lemma MLetterOf(relative: bool, u: string)
    requires |u| > 0 && !IsMultispace(u[0])
    ensures Trim(MLetter, CaseLetter('m', 'M', relative) + (" " + u)) == Done(relative, u)
  {
    var s := CaseLetter('m', 'M', relative) + (" " + u);
    assert s[0] == CaseLetter('m', 'M', relative)[0];
    assert s[1..] == " " + u;
    TrimDone(MLetter, s, relative, " " + u);
    SkipOneSpace(u);
    SkipMultispaceNoop(u);
  }

  /** `MPair` from the results of its two steps. */
  lemma MPairSteps(s: string, relative: bool, u: string, p: (Num, Num), rest: string)
    requires Trim(MLetter, s) == Done(relative, u)
    requires Point(u) == Done(p, rest)
    ensures MPair(s) == Done(M(p.0, p.1, relative), rest)
  {
  }

  /** `MFromStr` on text that `MPair` reads from its first character. */
  lemma MFromStrDone(s: string, m: M, rest: string)
    requires |s| > 0 && !IsMultispace(s[0])
    requires rest == [] || !IsMultispace(rest[0])
    requires MPair(s) == Done(m, rest)
    ensures MFromStr(s) == Done(m, rest)
  {
    TrimDone(MPair, s, m, rest);
    SkipMultispaceNoop(rest);
  }

  /** A letter, one space, and two numbers with either separator are read as one `M`. */
  lemma MFromStrOf(relative: bool, x: Num, y: Num, sep: string, t: string)
    requires Canonical(x) && Canonical(y)
    requires PointSeparator(sep)
    requires NumberEnds(t)
    ensures MFromStr(CaseLetter('m', 'M', relative) + (" " + (NumText(x) + sep + NumText(y) + t)))
              == Done(M(x, y, relative), SkipMultispace(t))
  {
    var letter := CaseLetter('m', 'M', relative);
    var u := NumText(x) + sep + NumText(y) + t;
    NumTextHead(x);
    PointTextHead(NumText(x), sep, NumText(y), t);
    PointRoundTrip(x, y, sep, t);
    LetterThenPoint(relative, x, y, u, letter + (" " + u), t);
  }

  lemma LetterThenPoint(relative: bool, x: Num, y: Num, u: string, s: string, t: string)
    requires |u| > 0 && !IsMultispace(u[0])
    requires s == CaseLetter('m', 'M', relative) + (" " + u)
    requires Point(u) == Done((x, y), SkipMultispace(t))
    ensures MFromStr(s) == Done(M(x, y, relative), SkipMultispace(t))
  {
    MLetterOf(relative, u);
    MPairSteps(s, relative, u, (x, y), SkipMultispace(t));
    HeadOf(CaseLetter('m', 'M', relative), " " + u);
    MFromStrDone(s, M(x, y, relative), SkipMultispace(t));
  }

  /** Reading a rendered `M` gives it back, with the whitespace after it consumed. */
  lemma MRoundTrip(m: M, t: string)
    requires Canonical(m.x) && Canonical(m.y)
    requires NumberEnds(t)
    ensures MFromStr(MText(m) + t) == Done(m, SkipMultispace(t))
  {
    var letter := CaseLetter('m', 'M', m.relative);
    var a := NumText(m.x) + "," + NumText(m.y);
    assert ArgsText(MArgs(m)) == a;
    Assoc(letter + " ", a, t);
    Assoc(letter, " ", a + t);
    MFromStrOf(m.relative, m.x, m.y, ",", t);
  }
}

/** The cases of the crate's own tests for `M::from_str`. */
module MoveToExamples {
  import opened Wrappers
  import opened Text
  import opened Decimal
  import opened PathArgs
  import opened MoveToCommand

  lemma TenAndTwenty()
    ensures NumText(FromInt(10)) == "10" && NumText(FromInt(20)) == "20"
  {
    WholeTens(1, 10);
    WholeTens(2, 20);
  }

  /** A whole number of tens below a hundred is written as its tens digit and `0`. */
  lemma WholeTens(a: nat, n: nat)
    requires 0 < a < 10 && n == 10 * a
    ensures NumText(FromInt(n)) == [DigitChar(a), '0']
  {
    NumTextWhole(n);
    NatTextTwoDigits(a, 0);
  }

  lemma MoveThenLineText(letter: string, ten: string, twenty: string)
    requires letter == "M" && ten == "10" && twenty == "20"
    ensures "M 10,20 l 80, 80" == letter + (" " + (ten + "," + twenty + " l 80, 80"))
  {
  }

  lemma MoveThenLineOf(s: string, t: string)
    requires s == "M 10,20 l 80, 80" && t == " l 80, 80"
    ensures MFromStr(s) == Done(M(FromInt(10), FromInt(20), false), SkipMultispace(t))
  {
    TenAndTwenty();
    MoveThenLineText(CaseLetter('m', 'M', false), NumText(FromInt(10)), NumText(FromInt(20)));
    MFromStrOf(false, FromInt(10), FromInt(20), ",", t);
  }

  lemma SkipBeforeLine(t: string)
    requires t == " l 80, 80"
    ensures SkipMultispace(t) == "l 80, 80"
  {
    SkipOneSpace("l 80, 80");
    SkipMultispaceNoop("l 80, 80");
  }

  /** `"M 10,20 l 80, 80"` is read up to the next command. */
  lemma MoveThenLine()
    ensures MFromStr("M 10,20 l 80, 80") == Done(M(FromInt(10), FromInt(20), false), "l 80, 80")
  {
    MoveThenLineOf("M 10,20 l 80, 80", " l 80, 80");
    SkipBeforeLine(" l 80, 80");
  }

  /** `"m 10,20"` is relative and is read to the end. */
  lemma RelativeMove()
    ensures MFromStr("m 10,20") == Done(M(FromInt(10), FromInt(20), true), "")
  {
    TenAndTwenty();
    var ten, twenty := NumText(FromInt(10)), NumText(FromInt(20));
    assert "m 10,20" == "m" + (" " + (ten + "," + twenty + ""));
    assert CaseLetter('m', 'M', true) == "m";
    MFromStrOf(true, FromInt(10), FromInt(20), ",", "");
  }

  /** A space separates the coordinates as well as a comma does. */
  lemma SpaceSeparatedMove()
    ensures MFromStr("M 10 20") == Done(M(FromInt(10), FromInt(20), false), "")
  {
    TenAndTwenty();
    var ten, twenty := NumText(FromInt(10)), NumText(FromInt(20));
    assert "M 10 20" == "M" + (" " + (ten + " " + twenty + ""));
    assert CaseLetter('m', 'M', false) == "M";
    MFromStrOf(false, FromInt(10), FromInt(20), " ", "");
  }
}
