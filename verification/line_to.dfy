/**
 * `L`, `H` and `V` (`src/children/path/line_to.rs`): a straight line to `x,y`, a
 * horizontal line to `x`, a vertical line to `y`. Only `V` has a reader in the
 * crate; `L` and `H` are proved against the reference reader of `PathArgs`.
 */
module LineToCommand {
  import opened Wrappers
  import opened Text
  import opened Decimal
  import opened Float
  import opened Parser
  import opened PathArgs

  datatype L = L(x: Num, y: Num, relative: bool)
  datatype H = H(x: Num, relative: bool)
  datatype V = V(y: Num, relative: bool)

  datatype LineTo = LineL(l: L) | LineH(h: H) | LineV(v: V)

  function LArgs(l: L): seq<Arg> { [Coord(l.x, l.y)] }
  function HArgs(h: H): seq<Arg> { [Number(h.x)] }
  function VArgs(v: V): seq<Arg> { [Number(v.y)] }

  /** `L x,y`, or `l x,y` when relative. */
  function LText(l: L): string {
    CommandLine('l', 'L', l.relative, LArgs(l))
  }

  /** `H x`, or `h x` when relative. */
  function HText(h: H): string {
    CommandLine('h', 'H', h.relative, HArgs(h))
  }

  /** `V y`, or `v y` when relative. */
  function VText(v: V): string {
    CommandLine('v', 'V', v.relative, VArgs(v))
  }

  /** `Display for LineTo`: the wrapped command's text. */
  function LineToText(c: LineTo): string {
    match c
    case LineL(l) => LText(l)
    case LineH(h) => HText(h)
    case LineV(v) => VText(v)
  }

  // ------------------------------------------------------------ V::from_str

  function VLetter(s: string): Parsed<bool> {
    LetterParse('v', 'V', s)
  }

  /** `pair(trim(alt((tag("v"), tag("V")))), float)` */
  function VPair(s: string): (r: Parsed<V>)
    ensures !r.Abort?
    ensures r.Done? ==> Canonical(r.value.y)
    ensures var u := SkipMultispace(s);
            r.Done? ==> |u| > 0 && (u[0] == 'v' || u[0] == 'V') && r.value.relative == (u[0] == 'v')
    ensures var u := SkipMultispace(s);
            (u == [] || (u[0] != 'v' && u[0] != 'V')) ==> r.NoMatch?
  {
    match Trim(VLetter, s)
    case Done(relative, rest) =>
      (match LexFloat(rest)
       case Done(y, rest') => Done(V(y, relative), rest')
       case _ => NoMatch)
    case _ => NoMatch
  }

  /**
   * `V::from_str`: whitespace, `v` or `V`, whitespace, one number, whitespace.
   * The command is relative exactly when the letter is `v`.
   */
  function VFromStr(s: string): (r: Parsed<V>)
    ensures !r.Abort?
    ensures var u := SkipMultispace(s);
            r.Done? ==> |u| > 0 && (u[0] == 'v' || u[0] == 'V') && r.value.relative == (u[0] == 'v')
    ensures var u := SkipMultispace(s);
            (u == [] || (u[0] != 'v' && u[0] != 'V')) ==> r.NoMatch?
    ensures r.Done? ==> Canonical(r.value.y) && (r.rest == [] || !IsMultispace(r.rest[0]))
  {
    SkipMultispaceIdem(s);
    Trim(VPair, s)
  }

  lemma VPairSteps(s: string, relative: bool, u: string, y: Num, rest: string)
    requires Trim(VLetter, s) == Done(relative, u)
    requires LexFloat(u) == Done(y, rest)
    ensures VPair(s) == Done(V(y, relative), rest)
  {
  }

  lemma VFromStrDone(s: string, v: V, rest: string)
    requires |s| > 0 && !IsMultispace(s[0])
    requires VPair(s) == Done(v, rest)
    ensures VFromStr(s) == Done(v, SkipMultispace(rest))
  {
    TrimDone(VPair, s, v, rest);
  }

  lemma VLetterOf(relative: bool, u: string)
    requires |u| > 0 && !IsMultispace(u[0])
    ensures Trim(VLetter, CaseLetter('v', 'V', relative) + (" " + u)) == Done(relative, u)
  {
    var s := CaseLetter('v', 'V', relative) + (" " + u);
    assert s[0] == CaseLetter('v', 'V', relative)[0];
    assert s[1..] == " " + u;
    TrimDone(VLetter, s, relative, " " + u);
    SkipOneSpace(u);
    SkipMultispaceNoop(u);
  }

  /** Reading a rendered `V` gives it back, with the whitespace after it consumed. */
  lemma VRoundTrip(v: V, t: string)
    requires Canonical(v.y)
    requires NumberEnds(t)
    ensures VFromStr(VText(v) + t) == Done(v, SkipMultispace(t))
  {
    var letter := CaseLetter('v', 'V', v.relative);
    var u := NumText(v.y) + t;
    assert ArgsText(VArgs(v)) == NumText(v.y);
    Assoc(letter, " ", NumText(v.y));
    Assoc(letter + " ", NumText(v.y), t);
    Assoc(letter, " ", u);
    var s := letter + (" " + u);
    assert VText(v) + t == s;
    NumTextLead(v.y, t);
    VLetterOf(v.relative, u);
    LexFloatRoundTrip(v.y, t);
    VPairSteps(s, v.relative, u, v.y, t);
    assert s[0] == letter[0];
    VFromStrDone(s, v, t);
  }

  // ------------------------------------------------------------ reference readers

  /** The reference reader of `L`. */
  function ReadL(s: string): (r: Parsed<L>)
    ensures !r.Abort?
  {
    match ReadLetterArgs('l', 'L', [CoordKind], s)
    case Done(v, rest) =>
      assert KindOf(v.1[0]) == CoordKind;
      Done(L(v.1[0].x, v.1[0].y, v.0), rest)
    case _ => NoMatch
  }

  /** The reference reader of `H`. */
  function ReadH(s: string): (r: Parsed<H>)
    ensures !r.Abort?
  {
    match ReadLetterArgs('h', 'H', [NumberKind], s)
    case Done(v, rest) =>
      assert KindOf(v.1[0]) == NumberKind;
      Done(H(v.1[0].n, v.0), rest)
    case _ => NoMatch
  }

  /** `L`'s text keeps its case and both coordinates. */
  lemma LReadBack(l: L, t: string)
    requires Canonical(l.x) && Canonical(l.y)
    requires NumberEnds(t)
    ensures ReadL(LText(l) + t) == Done(l, SkipMultispace(t))
  {
    assert KindsOf(LArgs(l)) == [CoordKind];
    ReadLetterArgsRoundTrip('l', 'L', l.relative, LArgs(l), t);
  }

  /** `H`'s text keeps its case and its coordinate. */
  lemma HReadBack(h: H, t: string)
    requires Canonical(h.x)
    requires NumberEnds(t)
    ensures ReadH(HText(h) + t) == Done(h, SkipMultispace(t))
  {
    assert KindsOf(HArgs(h)) == [NumberKind];
    ReadLetterArgsRoundTrip('h', 'H', h.relative, HArgs(h), t);
  }
}

/** The cases of the crate's own tests for `Display for LineTo`. */
module LineToExamples {
  import opened Decimal
  import opened PathArgs
  import opened LineToCommand
  import MoveToExamples

  /** `L { x: 10, y: 20 }` is written `L 10,20`, and `l 10,20` when relative. */
  lemma LineExamples()
    ensures LineToText(LineL(L(FromInt(10), FromInt(20), false))) == "L 10,20"
    ensures LineToText(LineL(L(FromInt(10), FromInt(20), true))) == "l 10,20"
  {
    MoveToExamples.TenAndTwenty();
    WrittenAs('l', 'L', [Coord(FromInt(10), FromInt(20))], "10,20");
  }

  /** `H { x: 10 }` is written `H 10`, and `h 10` when relative. */
  lemma HorizontalExamples()
    ensures LineToText(LineH(H(FromInt(10), false))) == "H 10"
    ensures LineToText(LineH(H(FromInt(10), true))) == "h 10"
  {
    MoveToExamples.TenAndTwenty();
    WrittenAs('h', 'H', [Number(FromInt(10))], "10");
  }

  /** `V { y: 10 }` is written `V 10`, and `v 10` when relative. */
  lemma VerticalExamples()
    ensures LineToText(LineV(V(FromInt(10), false))) == "V 10"
    ensures LineToText(LineV(V(FromInt(10), true))) == "v 10"
  {
    MoveToExamples.TenAndTwenty();
    WrittenAs('v', 'V', [Number(FromInt(10))], "10");
  }

  /** A one-argument command line is its letter, a space and the argument. */
  lemma WrittenAs(lower: char, upper: char, args: seq<Arg>, text: string)
    requires |args| == 1 && ArgText(args[0]) == text
    ensures CommandLine(lower, upper, false, args) == [upper] + " " + text
    ensures CommandLine(lower, upper, true, args) == [lower] + " " + text
  {
  }
}
