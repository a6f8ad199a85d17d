/**
 * `Command` (`src/children/path/command.rs`): one path command of any family.
 * Each `From` impl of the crate is the matching constructor. `Display` writes the
 * wrapped command.
 *
 * `ReadCommand` is a reference reader that picks the family by the first letter;
 * `CommandReadBack` proves that the text of every command is read back as that
 * command, except that a relative `Z` comes back absolute.
 */
module PathCommand {
  import opened Wrappers
  import opened Text
  import opened Decimal
  import opened Float
  import opened PathArgs
  import MT = MoveToCommand
  import LT = LineToCommand
  import CB = CubicBezierCommand
  import QB = QuadraticBezierCommand
  import EA = EllipticalArcCommand
  import CP = ClosePathCommand

  datatype Command =
    | MoveTo(m: MT.M)
    | LineTo(l: LT.LineTo)
    | CubicBezier(c: CB.CubicBezier)
    | QuadraticBezier(q: QB.QuadraticBezier)
    | EllipticalArc(a: EA.A)
    | ClosePath(z: CP.Z)

  function CommandText(c: Command): string {
    match c
    case MoveTo(m) => MT.MText(m)
    case LineTo(l) => LT.LineToText(l)
    case CubicBezier(b) => CB.CubicBezierText(b)
    case QuadraticBezier(b) => QB.QuadraticBezierText(b)
    case EllipticalArc(a) => EA.AText(a)
    case ClosePath(z) => CP.ZText(z)
  }

  /** Whether the command's coordinates are relative. */
  function Relative(c: Command): bool {
    match c
    case MoveTo(m) => m.relative
    case LineTo(LineL(l)) => l.relative
    case LineTo(LineH(h)) => h.relative
    case LineTo(LineV(v)) => v.relative
    case CubicBezier(CubicC(b)) => b.relative
    case CubicBezier(CubicS(b)) => b.relative
    case QuadraticBezier(QuadraticQ(b)) => b.relative
    case QuadraticBezier(QuadraticT(b)) => b.relative
    case EllipticalArc(a) => a.relative
    case ClosePath(z) => z.relative
  }

  /** The command's letter in lower and upper case (SVG 1.1 section 8.3). */
  function Letters(c: Command): (char, char) {
    match c
    case MoveTo(_) => ('m', 'M')
    case LineTo(LineL(_)) => ('l', 'L')
    case LineTo(LineH(_)) => ('h', 'H')
    case LineTo(LineV(_)) => ('v', 'V')
    case CubicBezier(CubicC(_)) => ('c', 'C')
    case CubicBezier(CubicS(_)) => ('s', 'S')
    case QuadraticBezier(QuadraticQ(_)) => ('q', 'Q')
    case QuadraticBezier(QuadraticT(_)) => ('t', 'T')
    case EllipticalArc(_) => ('a', 'A')
    case ClosePath(_) => ('z', 'Z')
  }

  /** The numbers the renderers write so that they read back unchanged. */
  predicate WellFormedCommand(c: Command) {
    match c
    case MoveTo(m) => Canonical(m.x) && Canonical(m.y)
    case LineTo(LineL(l)) => Canonical(l.x) && Canonical(l.y)
    case LineTo(LineH(h)) => Canonical(h.x)
    case LineTo(LineV(v)) => Canonical(v.y)
    case CubicBezier(CubicC(b)) => CB.WellFormedC(b)
    case CubicBezier(CubicS(b)) => CB.WellFormedS(b)
    case QuadraticBezier(QuadraticQ(b)) => QB.WellFormedQ(b)
    case QuadraticBezier(QuadraticT(b)) => Canonical(b.x) && Canonical(b.y)
    case EllipticalArc(a) => EA.WellFormedA(a)
    case ClosePath(_) => true
  }

  /** A command as it reads back: `Z` loses its case. */
  function Normalize(c: Command): Command {
    if c.ClosePath? then ClosePath(CP.Z(false)) else c
  }

  /** The arguments the renderer writes after the letter; `Z` has none. */
  function Args(c: Command): seq<Arg> {
    match c
    case MoveTo(m) => MT.MArgs(m)
    case LineTo(LineL(l)) => LT.LArgs(l)
    case LineTo(LineH(h)) => LT.HArgs(h)
    case LineTo(LineV(v)) => LT.VArgs(v)
    case CubicBezier(CubicC(b)) => CB.CArgs(b)
    case CubicBezier(CubicS(b)) => CB.SArgs(b)
    case QuadraticBezier(QuadraticQ(b)) => QB.QArgs(b)
    case QuadraticBezier(QuadraticT(b)) => QB.TArgs(b)
    case EllipticalArc(a) => EA.AArgs(a)
    case ClosePath(_) => []
  }

  /**
   * Every command but `Z` is written as its letter, in lower case exactly when it
   * is relative, then a space and its arguments; `Z` is always the single letter `Z`.
   */
  lemma CommandTextShape(c: Command)
    ensures !c.ClosePath? ==>
              CommandText(c) == CommandLine(Letters(c).0, Letters(c).1, Relative(c), Args(c))
    ensures c.ClosePath? ==> CommandText(c) == "Z"
    ensures |CommandText(c)| > 0
    ensures CommandText(c)[0] == if c.ClosePath? then 'Z'
                                 else if Relative(c) then Letters(c).0 else Letters(c).1
  {
    if !c.ClosePath? {
      var line := CommandLine(Letters(c).0, Letters(c).1, Relative(c), Args(c));
      assert line[0] == CaseLetter(Letters(c).0, Letters(c).1, Relative(c))[0];
    }
  }

  function ReadM(s: string): Parsed<Command> {
    match MT.MFromStr(s) case Done(p, rest) => Done(MoveTo(p), rest) case _ => NoMatch
  }

  function ReadL(s: string): Parsed<Command> {
    match LT.ReadL(s) case Done(p, rest) => Done(LineTo(LT.LineL(p)), rest) case _ => NoMatch
  }

  function ReadH(s: string): Parsed<Command> {
    match LT.ReadH(s) case Done(p, rest) => Done(LineTo(LT.LineH(p)), rest) case _ => NoMatch
  }

  function ReadV(s: string): Parsed<Command> {
    match LT.VFromStr(s) case Done(p, rest) => Done(LineTo(LT.LineV(p)), rest) case _ => NoMatch
  }

  function ReadC(s: string): Parsed<Command> {
    match CB.ReadC(s) case Done(p, rest) => Done(CubicBezier(CB.CubicC(p)), rest) case _ => NoMatch
  }

  function ReadS(s: string): Parsed<Command> {
    match CB.ReadS(s) case Done(p, rest) => Done(CubicBezier(CB.CubicS(p)), rest) case _ => NoMatch
  }

  function ReadQ(s: string): Parsed<Command> {
    match QB.ReadQ(s) case Done(p, rest) => Done(QuadraticBezier(QB.QuadraticQ(p)), rest) case _ => NoMatch
  }

  function ReadT(s: string): Parsed<Command> {
    match QB.ReadT(s) case Done(p, rest) => Done(QuadraticBezier(QB.QuadraticT(p)), rest) case _ => NoMatch
  }

  function ReadA(s: string): Parsed<Command> {
    match EA.ReadA(s) case Done(p, rest) => Done(EllipticalArc(p), rest) case _ => NoMatch
  }

  function ReadZ(u: string): Parsed<Command> {
    match CP.ZFromStr(u) case Done(z, rest) => Done(ClosePath(z), SkipMultispace(rest)) case _ => NoMatch
  }

  /** The reader of the family a letter names, in either case; `Z` has its own. */
  function ReaderOf(ch: char): Option<string -> Parsed<Command>> {
    if ch == 'm' || ch == 'M' then Some(ReadM)
    else if ch == 'l' || ch == 'L' then Some(ReadL)
    else if ch == 'h' || ch == 'H' then Some(ReadH)
    else if ch == 'v' || ch == 'V' then Some(ReadV)
    else if ch == 'c' || ch == 'C' then Some(ReadC)
    else if ch == 's' || ch == 'S' then Some(ReadS)
    else if ch == 'q' || ch == 'Q' then Some(ReadQ)
    else if ch == 't' || ch == 'T' then Some(ReadT)
    else if ch == 'a' || ch == 'A' then Some(ReadA)
    else None
  }

  /**
   * The reference reader: the first letter after any whitespace picks the family,
   * then that family's reader runs (the crate's own for `M`, `V` and `Z`).
   */
  function ReadCommand(s: string): Parsed<Command> {
    var u := SkipMultispace(s);
    if u == [] then NoMatch
    else if u[0] == 'z' || u[0] == 'Z' then ReadZ(u)
    else match ReaderOf(u[0])
      case Some(read) => read(s)
      case None => NoMatch
  }

  /** Text that starts with a letter is read by the family that letter names. */
  lemma ReadCommandStart(c: Command, t: string)
    ensures var s := CommandText(c) + t;
            |s| > 0 && s[0] == CommandText(c)[0] && SkipMultispace(s) == s
  {
    CommandTextShape(c);
    LeadingLetter(CommandText(c), t);
  }

  lemma LeadingLetter(w: string, t: string)
    requires |w| > 0 && ('a' <= w[0] <= 'z' || 'A' <= w[0] <= 'Z')
    ensures |w + t| > 0 && (w + t)[0] == w[0] && SkipMultispace(w + t) == w + t
  {
    HeadOf(w, t);
    SkipMultispaceNoop(w + t);
  }

  /** A text starting with `m` or `M` is read by `M`'s reader. */
  lemma PicksM(s: string)
    requires s != [] && (s[0] == 'm' || s[0] == 'M') && SkipMultispace(s) == s
    ensures ReadCommand(s) == ReadM(s)
  {
    assert ReaderOf(s[0]) == Some(ReadM);
  }

  lemma PicksL(s: string)
    requires s != [] && (s[0] == 'l' || s[0] == 'L') && SkipMultispace(s) == s
    ensures ReadCommand(s) == ReadL(s)
  {
    assert ReaderOf(s[0]) == Some(ReadL);
  }

  lemma PicksH(s: string)
    requires s != [] && (s[0] == 'h' || s[0] == 'H') && SkipMultispace(s) == s
    ensures ReadCommand(s) == ReadH(s)
  {
    assert ReaderOf(s[0]) == Some(ReadH);
  }

  lemma PicksV(s: string)
    requires s != [] && (s[0] == 'v' || s[0] == 'V') && SkipMultispace(s) == s
    ensures ReadCommand(s) == ReadV(s)
  {
    assert ReaderOf(s[0]) == Some(ReadV);
  }

  lemma PicksC(s: string)
    requires s != [] && (s[0] == 'c' || s[0] == 'C') && SkipMultispace(s) == s
    ensures ReadCommand(s) == ReadC(s)
  {
    assert ReaderOf(s[0]) == Some(ReadC);
  }

  lemma PicksS(s: string)
    requires s != [] && (s[0] == 's' || s[0] == 'S') && SkipMultispace(s) == s
    ensures ReadCommand(s) == ReadS(s)
  {
    assert ReaderOf(s[0]) == Some(ReadS);
  }

  lemma PicksQ(s: string)
    requires s != [] && (s[0] == 'q' || s[0] == 'Q') && SkipMultispace(s) == s
    ensures ReadCommand(s) == ReadQ(s)
  {
    assert ReaderOf(s[0]) == Some(ReadQ);
  }

  lemma PicksT(s: string)
    requires s != [] && (s[0] == 't' || s[0] == 'T') && SkipMultispace(s) == s
    ensures ReadCommand(s) == ReadT(s)
  {
    assert ReaderOf(s[0]) == Some(ReadT);
  }

  lemma PicksA(s: string)
    requires s != [] && (s[0] == 'a' || s[0] == 'A') && SkipMultispace(s) == s
    ensures ReadCommand(s) == ReadA(s)
  {
    assert ReaderOf(s[0]) == Some(ReadA);
  }

  lemma MoveToReadBack(m: MT.M, t: string)
    requires WellFormedCommand(MoveTo(m))
    requires NumberEnds(t)
    ensures ReadCommand(CommandText(MoveTo(m)) + t) == Done(MoveTo(m), SkipMultispace(t))
  {
    var s := CommandText(MoveTo(m)) + t;
    ReadCommandStart(MoveTo(m), t);
    MT.MRoundTrip(m, t);
    PicksM(s);
  }

  lemma LineToReadBack(l: LT.LineTo, t: string)
    requires WellFormedCommand(LineTo(l))
    requires NumberEnds(t)
    ensures ReadCommand(CommandText(LineTo(l)) + t) == Done(LineTo(l), SkipMultispace(t))
  {
    var s := CommandText(LineTo(l)) + t;
    ReadCommandStart(LineTo(l), t);
    match l
    case LineL(p) =>
      LT.LReadBack(p, t);
      PicksL(s);
    case LineH(p) =>
      LT.HReadBack(p, t);
      PicksH(s);
    case LineV(p) =>
      LT.VRoundTrip(p, t);
      PicksV(s);
  }

  lemma CubicBezierReadBack(b: CB.CubicBezier, t: string)
    requires WellFormedCommand(CubicBezier(b))
    requires NumberEnds(t)
    ensures ReadCommand(CommandText(CubicBezier(b)) + t) == Done(CubicBezier(b), SkipMultispace(t))
  {
    var s := CommandText(CubicBezier(b)) + t;
    ReadCommandStart(CubicBezier(b), t);
    match b
    case CubicC(p) =>
      CB.CReadBack(p, t);
      PicksC(s);
    case CubicS(p) =>
      CB.SReadBack(p, t);
      PicksS(s);
  }

  lemma QuadraticBezierReadBack(b: QB.QuadraticBezier, t: string)
    requires WellFormedCommand(QuadraticBezier(b))
    requires NumberEnds(t)
    ensures ReadCommand(CommandText(QuadraticBezier(b)) + t)
              == Done(QuadraticBezier(b), SkipMultispace(t))
  {
    var s := CommandText(QuadraticBezier(b)) + t;
    ReadCommandStart(QuadraticBezier(b), t);
    match b
    case QuadraticQ(p) =>
      QB.QReadBack(p, t);
      PicksQ(s);
    case QuadraticT(p) =>
      QB.TReadBack(p, t);
      PicksT(s);
  }

  lemma EllipticalArcReadBack(a: EA.A, t: string)
    requires WellFormedCommand(EllipticalArc(a))
    requires NumberEnds(t)
    ensures ReadCommand(CommandText(EllipticalArc(a)) + t) == Done(EllipticalArc(a), SkipMultispace(t))
  {
    var s := CommandText(EllipticalArc(a)) + t;
    ReadCommandStart(EllipticalArc(a), t);
    EA.AReadBack(a, t);
    PicksA(s);
  }

  /** `Z` is read from the first non-space character, which is the `Z` itself. */
  lemma ReadCommandZ(s: string)
    requires s != [] && s[0] == 'Z' && SkipMultispace(s) == s
    ensures ReadCommand(s) == Done(ClosePath(CP.Z(false)), SkipMultispace(s[1..]))
  {
  }

  lemma ClosePathReadBack(z: CP.Z, t: string)
    ensures ReadCommand(CommandText(ClosePath(z)) + t) == Done(ClosePath(CP.Z(false)), SkipMultispace(t))
  {
    var s := CommandText(ClosePath(z)) + t;
    ReadCommandStart(ClosePath(z), t);
    assert s[1..] == t;
    ReadCommandZ(s);
  }

  /**
   * Every rendered command reads back as itself, with the whitespace after it
   * consumed, so that the next command can follow; a relative `Z` comes back absolute.
   */
  lemma CommandReadBack(c: Command, t: string)
    requires WellFormedCommand(c)
    requires NumberEnds(t)
    ensures ReadCommand(CommandText(c) + t) == Done(Normalize(c), SkipMultispace(t))
  {
    match c
    case MoveTo(m) => MoveToReadBack(m, t);
    case LineTo(l) => LineToReadBack(l, t);
    case CubicBezier(b) => CubicBezierReadBack(b, t);
    case QuadraticBezier(b) => QuadraticBezierReadBack(b, t);
    case EllipticalArc(a) => EllipticalArcReadBack(a, t);
    case ClosePath(z) => ClosePathReadBack(z, t);
  }
}
