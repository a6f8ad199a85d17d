/**
 * `C` and `S` (`src/children/path/cubic_bezier.rs`): a cubic Bézier curve with
 * both control points, and the smooth form whose first control point is implied.
 * The crate renders them but has no reader; they are proved against the
 * reference reader of `PathArgs`.
 */
module CubicBezierCommand {
  import opened Wrappers
  import opened Text
  import opened Decimal
  import opened Float
  import opened PathArgs

  datatype C = C(x1: Num, y1: Num, x2: Num, y2: Num, x: Num, y: Num, relative: bool)
  datatype S = S(x2: Num, y2: Num, x: Num, y: Num, relative: bool)

  datatype CubicBezier = CubicC(c: C) | CubicS(s: S)

  const CKinds: seq<ArgKind> := [CoordKind, CoordKind, CoordKind]
  const SKinds: seq<ArgKind> := [CoordKind, CoordKind]

  function CArgs(c: C): seq<Arg> { [Coord(c.x1, c.y1), Coord(c.x2, c.y2), Coord(c.x, c.y)] }
  function SArgs(s: S): seq<Arg> { [Coord(s.x2, s.y2), Coord(s.x, s.y)] }

  predicate WellFormedC(c: C) {
    Canonical(c.x1) && Canonical(c.y1) && Canonical(c.x2) && Canonical(c.y2)
    && Canonical(c.x) && Canonical(c.y)
  }

  predicate WellFormedS(s: S) {
    Canonical(s.x2) && Canonical(s.y2) && Canonical(s.x) && Canonical(s.y)
  }

  /** `C x1,y1 x2,y2 x,y`, with `c` when relative. */
  function CText(c: C): string {
    CommandLine('c', 'C', c.relative, CArgs(c))
  }

  /** `S x2,y2 x,y`, with `s` when relative. */
  function SText(s: S): string {
    CommandLine('s', 'S', s.relative, SArgs(s))
  }

  /** `Display for CubicBezier`: the wrapped command's text. */
  function CubicBezierText(b: CubicBezier): string {
    match b
    case CubicC(c) => CText(c)
    case CubicS(s) => SText(s)
  }

  /** The reference reader of `C`. */
  function ReadC(s: string): (r: Parsed<C>)
    ensures !r.Abort?
  {
    match ReadLetterArgs('c', 'C', CKinds, s)
    case Done(v, rest) =>
      var a := v.1;
      assert KindOf(a[0]) == CoordKind && KindOf(a[1]) == CoordKind && KindOf(a[2]) == CoordKind;
      Done(C(a[0].x, a[0].y, a[1].x, a[1].y, a[2].x, a[2].y, v.0), rest)
    case _ => NoMatch
  }

  /** The reference reader of `S`. */
  function ReadS(s: string): (r: Parsed<S>)
    ensures !r.Abort?
  {
    match ReadLetterArgs('s', 'S', SKinds, s)
    case Done(v, rest) =>
      var a := v.1;
      assert KindOf(a[0]) == CoordKind && KindOf(a[1]) == CoordKind;
      Done(S(a[0].x, a[0].y, a[1].x, a[1].y, v.0), rest)
    case _ => NoMatch
  }

  /** `C`'s text keeps its case and all six coordinates, in order. */
  lemma CReadBack(c: C, t: string)
    requires WellFormedC(c)
    requires NumberEnds(t)
    ensures ReadC(CText(c) + t) == Done(c, SkipMultispace(t))
  {
    assert KindsOf(CArgs(c)) == CKinds;
    ReadLetterArgsRoundTrip('c', 'C', c.relative, CArgs(c), t);
  }

  /** `S`'s text keeps its case and all four coordinates, in order. */
  lemma SReadBack(s: S, t: string)
    requires WellFormedS(s)
    requires NumberEnds(t)
    ensures ReadS(SText(s) + t) == Done(s, SkipMultispace(t))
  {
    assert KindsOf(SArgs(s)) == SKinds;
    ReadLetterArgsRoundTrip('s', 'S', s.relative, SArgs(s), t);
  }
}
