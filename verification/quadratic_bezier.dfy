/**
 * `Q` and `T` (`src/children/path/quadratic_bezier.rs`): a quadratic Bézier curve
 * with its control point, and the smooth form whose control point is implied.
 * The crate renders them but has no reader; they are proved against the
 * reference reader of `PathArgs`.
 */
module QuadraticBezierCommand {
  import opened Wrappers
  import opened Text
  import opened Decimal
  import opened Float
  import opened PathArgs

  datatype Q = Q(x1: Num, y1: Num, x: Num, y: Num, relative: bool)
  datatype T = T(x: Num, y: Num, relative: bool)

  datatype QuadraticBezier = QuadraticQ(q: Q) | QuadraticT(t: T)

  const QKinds: seq<ArgKind> := [CoordKind, CoordKind]

  function QArgs(q: Q): seq<Arg> { [Coord(q.x1, q.y1), Coord(q.x, q.y)] }
  function TArgs(t: T): seq<Arg> { [Coord(t.x, t.y)] }

  predicate WellFormedQ(q: Q) {
    Canonical(q.x1) && Canonical(q.y1) && Canonical(q.x) && Canonical(q.y)
  }

  /** `Q x1,y1 x,y`, with `q` when relative. */
  function QText(q: Q): string {
    CommandLine('q', 'Q', q.relative, QArgs(q))
  }

  /** `T x,y`, with `t` when relative. */
  function TText(t: T): string {
    CommandLine('t', 'T', t.relative, TArgs(t))
  }

  /** `Display for QuadraticBezier`: the wrapped command's text. */
  function QuadraticBezierText(b: QuadraticBezier): string {
    match b
    case QuadraticQ(q) => QText(q)
    case QuadraticT(t) => TText(t)
  }

  /** The reference reader of `Q`. */
  function ReadQ(s: string): (r: Parsed<Q>)
    ensures !r.Abort?
  {
    match ReadLetterArgs('q', 'Q', QKinds, s)
    case Done(v, rest) =>
      var a := v.1;
      assert KindOf(a[0]) == CoordKind && KindOf(a[1]) == CoordKind;
      Done(Q(a[0].x, a[0].y, a[1].x, a[1].y, v.0), rest)
    case _ => NoMatch
  }

  /** The reference reader of `T`. */
  function ReadT(s: string): (r: Parsed<T>)
    ensures !r.Abort?
  {
    match ReadLetterArgs('t', 'T', [CoordKind], s)
    case Done(v, rest) =>
      assert KindOf(v.1[0]) == CoordKind;
      Done(T(v.1[0].x, v.1[0].y, v.0), rest)
    case _ => NoMatch
  }

  /** `Q`'s text keeps its case and all four coordinates, in order. */
  lemma QReadBack(q: Q, t: string)
    requires WellFormedQ(q)
    requires NumberEnds(t)
    ensures ReadQ(QText(q) + t) == Done(q, SkipMultispace(t))
  {
    assert KindsOf(QArgs(q)) == QKinds;
    ReadLetterArgsRoundTrip('q', 'Q', q.relative, QArgs(q), t);
  }

  /** `T`'s text keeps its case and both coordinates. */
  lemma TReadBack(p: T, t: string)
    requires Canonical(p.x) && Canonical(p.y)
    requires NumberEnds(t)
    ensures ReadT(TText(p) + t) == Done(p, SkipMultispace(t))
  {
    assert KindsOf(TArgs(p)) == [CoordKind];
    ReadLetterArgsRoundTrip('t', 'T', p.relative, TArgs(p), t);
  }
}
