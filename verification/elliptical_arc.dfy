/**
 * `A` (`src/children/path/elliptical_arc.rs`): an elliptical arc to `x,y` with
 * radii `rx`, `ry`, the rotation `angle` of the ellipse, and the large-arc and
 * sweep flags. The crate renders it but has no reader; it is proved against the
 * reference reader of `PathArgs`.
 */
module EllipticalArcCommand {
  import opened Wrappers
  import opened Text
  import opened Decimal
  import opened Float
  import opened Parser
  import opened PathArgs

  datatype A = A(rx: Num, ry: Num, angle: Num, largeArc: bool, sweep: bool,
                 x: Num, y: Num, relative: bool)

  const AKinds: seq<ArgKind> :=
    [NumberKind, NumberKind, NumberKind, FlagKind, FlagKind, CoordKind]

  /** Radii, angle and flags are separate arguments; only the end point is a pair. */
  function AArgs(a: A): seq<Arg> {
    [Number(a.rx), Number(a.ry), Number(a.angle), Flag(a.largeArc), Flag(a.sweep), Coord(a.x, a.y)]
  }

  predicate WellFormedA(a: A) {
    Canonical(a.rx) && Canonical(a.ry) && Canonical(a.angle) && Canonical(a.x) && Canonical(a.y)
  }

  /** `A rx ry angle large sweep x,y`, with `a` when relative and each flag as `1` or `0`. */
  function AText(a: A): string {
    CommandLine('a', 'A', a.relative, AArgs(a))
  }

  lemma AKindsShape(g: seq<Arg>)
    requires KindsOf(g) == AKinds
    ensures |g| == 6 && g[0].Number? && g[1].Number? && g[2].Number?
    ensures g[3].Flag? && g[4].Flag? && g[5].Coord?
  {
    assert KindOf(g[0]) == NumberKind && KindOf(g[1]) == NumberKind && KindOf(g[2]) == NumberKind;
    assert KindOf(g[3]) == FlagKind && KindOf(g[4]) == FlagKind && KindOf(g[5]) == CoordKind;
  }

  /** The reference reader of `A`. */
  function ReadA(s: string): (r: Parsed<A>)
    ensures !r.Abort?
  {
    match ReadLetterArgs('a', 'A', AKinds, s)
    case Done(v, rest) =>
      var g := v.1;
      AKindsShape(g);
      Done(A(g[0].n, g[1].n, g[2].n, g[3].b, g[4].b, g[5].x, g[5].y, v.0), rest)
    case _ => NoMatch
  }

  /** `A`'s text keeps its case, radii, angle, both flags and end point, in order. */
  lemma AReadBack(a: A, t: string)
    requires WellFormedA(a)
    requires NumberEnds(t)
    ensures ReadA(AText(a) + t) == Done(a, SkipMultispace(t))
  {
    assert KindsOf(AArgs(a)) == AKinds;
    ReadLetterArgsRoundTrip('a', 'A', a.relative, AArgs(a), t);
  }

  /** The flags are written as `1` for true and `0` for false. */
  lemma AFlagsText(a: A)
    ensures ArgText(AArgs(a)[3]) == (if a.largeArc then "1" else "0")
    ensures ArgText(AArgs(a)[4]) == (if a.sweep then "1" else "0")
  {
  }
}
