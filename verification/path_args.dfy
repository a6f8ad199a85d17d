/**
 * The shared shape of the path commands of `src/children/path/`: a command letter
 * whose case says whether the coordinates are relative, a space, then the
 * arguments separated by single spaces. An argument is a number, a coordinate
 * pair written `x,y`, or a flag written `1`/`0` (SVG 1.1 section 8.3.1).
 *
 * The crate reads only `M`, `V` and `Z`. `ReadLetterArgs` is a reference reader
 * assembled from the crate's own combinators (`point`, `bool_flag`, `float`
 * trimmed like the others): it is what the renderers are proved against, so that
 * "the text keeps every field" is a statement about reading it back.
 */
module PathArgs {
  import opened Wrappers
  import opened Text
  import opened Decimal
  import opened Float
  import opened Parser

  datatype Arg = Number(n: Num) | Coord(x: Num, y: Num) | Flag(b: bool)

  datatype ArgKind = NumberKind | CoordKind | FlagKind

  function KindOf(a: Arg): ArgKind {
    match a
    case Number(_) => NumberKind
    case Coord(_, _) => CoordKind
    case Flag(_) => FlagKind
  }

  function KindsOf(args: seq<Arg>): (r: seq<ArgKind>)
    ensures |r| == |args|
    ensures forall i :: 0 <= i < |args| ==> r[i] == KindOf(args[i])
  {
    seq(|args|, i requires 0 <= i < |args| => KindOf(args[i]))
  }

  /** The numbers a renderer writes so that they read back unchanged. */
  predicate WellFormedArg(a: Arg) {
    match a
    case Number(n) => Canonical(n)
    case Coord(x, y) => Canonical(x) && Canonical(y)
    case Flag(_) => true
  }

  /** A number as `{}`, a pair as `{},{}`, a flag as `1` or `0`. */
  function ArgText(a: Arg): (r: string)
    ensures |r| > 0 && !IsMultispace(r[0])
  {
    match a
    case Number(n) =>
      NumTextHead(n);
      NumText(n)
    case Coord(x, y) =>
      NumTextHead(x);
      NumText(x) + "," + NumText(y)
    case Flag(b) => FlagText(b)
  }

  /** The arguments separated by single spaces. */
  function ArgsText(args: seq<Arg>): (r: string)
    ensures |args| > 0 ==> |r| > 0 && r[0] == ArgText(args[0])[0]
  {
    if |args| == 0 then ""
    else if |args| == 1 then ArgText(args[0])
    else ArgText(args[0]) + " " + ArgsText(args[1..])
  }

  /** The letter, lower-case when relative. */
  function CaseLetter(lower: char, upper: char, relative: bool): (r: string)
    ensures |r| == 1 && r[0] == (if relative then lower else upper)
  {
    if relative then [lower] else [upper]
  }

  /** One command as the crate's `Display` impls write it: `<letter> <arg> <arg> ...`. */
  function CommandLine(lower: char, upper: char, relative: bool, args: seq<Arg>): string {
    CaseLetter(lower, upper, relative) + " " + ArgsText(args)
  }

  /** `alt((tag(lower), tag(upper)))`, yielding whether the lower-case letter matched. */
  function LetterParse(lower: char, upper: char, s: string): (r: Parsed<bool>)
    ensures !r.Abort?
    ensures r.Done? <==> |s| > 0 && (s[0] == lower || s[0] == upper)
    ensures r.Done? ==> r.value == (s[0] == lower) && r.rest == s[1..]
  {
    if |s| > 0 && s[0] == lower then Done(true, s[1..])
    else if |s| > 0 && s[0] == upper then Done(false, s[1..])
    else NoMatch
  }

  /** One argument: a trimmed `float`, a `point`, or a `bool_flag`. */
  function ReadArg(k: ArgKind, s: string): (r: Parsed<Arg>)
    ensures !r.Abort?
    ensures r.Done? ==> KindOf(r.value) == k && WellFormedArg(r.value)
  {
    match k
    case NumberKind => ReadNumberArg(s)
    case CoordKind => ReadCoordArg(s)
    case FlagKind => ReadFlagArg(s)
  }

  function ReadNumberArg(s: string): (r: Parsed<Arg>)
    ensures !r.Abort?
    ensures r.Done? ==> r.value.Number? && Canonical(r.value.n)
  {
    match Trim(LexFloat, s)
    case Done(n, rest) => Done(Number(n), rest)
    case _ => NoMatch
  }

  function ReadCoordArg(s: string): (r: Parsed<Arg>)
    ensures !r.Abort?
    ensures r.Done? ==> r.value.Coord? && Canonical(r.value.x) && Canonical(r.value.y)
  {
    match Point(s)
    case Done(p, rest) => Done(Coord(p.0, p.1), rest)
    case _ => NoMatch
  }

  function ReadFlagArg(s: string): (r: Parsed<Arg>)
    ensures !r.Abort?
    ensures r.Done? ==> r.value.Flag?
  {
    match BoolFlag(s)
    case Done(b, rest) => Done(Flag(b), rest)
    case _ => NoMatch
  }

  /** The arguments of the given kinds, one after the other. */
  function ReadArgs(kinds: seq<ArgKind>, s: string): (r: Parsed<seq<Arg>>)
    ensures !r.Abort?
    ensures r.Done? ==> KindsOf(r.value) == kinds
    ensures r.Done? ==> forall i :: 0 <= i < |r.value| ==> WellFormedArg(r.value[i])
    decreases |kinds|
  {
    if kinds == [] then Done([], s)
    else
      match ReadArg(kinds[0], s)
      case Done(a, rest) =>
        (match ReadArgs(kinds[1..], rest)
         case Done(more, rest') =>
           ConsArgs(a, more);
           ConsSplit(kinds);
           Done([a] + more, rest')
         case _ => NoMatch)
      case _ => NoMatch
  }

  /** One more argument in front keeps its kind and its well-formedness. */
  lemma ConsArgs(a: Arg, more: seq<Arg>)
    requires WellFormedArg(a)
    requires forall i :: 0 <= i < |more| ==> WellFormedArg(more[i])
    ensures KindsOf([a] + more) == [KindOf(a)] + KindsOf(more)
    ensures forall i :: 0 <= i < |[a] + more| ==> WellFormedArg(([a] + more)[i])
  {
    var r := [a] + more;
    forall i | 0 <= i < |r|
      ensures WellFormedArg(r[i]) && KindsOf(r)[i] == ([KindOf(a)] + KindsOf(more))[i]
    {
      if i > 0 {
        assert r[i] == more[i - 1];
      }
    }
  }

  /**
   * The reference reader of one command: whitespace, the letter in either case,
   * whitespace, the arguments, whitespace.
   */
  function ReadLetterArgs(lower: char, upper: char, kinds: seq<ArgKind>, s: string)
    : (r: Parsed<(bool, seq<Arg>)>)
    ensures !r.Abort?
    ensures r.Done? ==> KindsOf(r.value.1) == kinds
    ensures r.Done? ==> forall i :: 0 <= i < |r.value.1| ==> WellFormedArg(r.value.1[i])
  {
    match Trim(s' => LetterParse(lower, upper, s'), s)
    case Done(relative, rest) =>
      (match ReadArgs(kinds, rest)
       case Done(args, rest') => Done((relative, args), SkipMultispace(rest'))
       case _ => NoMatch)
    case _ => NoMatch
  }

  /** What may follow the last argument without being read as part of it. */
  predicate ArgEnds(a: Arg, t: string) {
    a.Flag? || NumberEnds(t)
  }

  /** One rendered argument reads back as itself, with the whitespace after it. */
  lemma ReadArgRoundTrip(a: Arg, t: string)
    requires WellFormedArg(a) && ArgEnds(a, t)
    ensures ReadArg(KindOf(a), ArgText(a) + t) == Done(a, SkipMultispace(t))
  {
    match a
    case Number(n) =>
      assert ArgText(a) == NumText(n);
      ReadNumberRoundTrip(n, t);
    case Coord(x, y) =>
      assert ArgText(a) == NumText(x) + "," + NumText(y);
      ReadCoordRoundTrip(x, y, t);
    case Flag(b) =>
      assert ArgText(a) == FlagText(b);
      ReadFlagRoundTrip(b, t);
  }

  lemma ReadNumberRoundTrip(n: Num, t: string)
    requires Canonical(n) && NumberEnds(t)
    ensures ReadArg(NumberKind, NumText(n) + t) == Done(Number(n), SkipMultispace(t))
  {
    LexFloatRoundTrip(n, t);
    NumTextLead(n, t);
    TrimDone(LexFloat, NumText(n) + t, n, t);
  }

  lemma ReadCoordRoundTrip(x: Num, y: Num, t: string)
    requires Canonical(x) && Canonical(y) && NumberEnds(t)
    ensures ReadArg(CoordKind, NumText(x) + "," + NumText(y) + t) == Done(Coord(x, y), SkipMultispace(t))
  {
    PointRoundTrip(x, y, ",", t);
  }

  lemma ReadFlagRoundTrip(b: bool, t: string)
    ensures ReadArg(FlagKind, FlagText(b) + t) == Done(Flag(b), SkipMultispace(t))
  {
    BoolFlagRoundTrip(b, t);
    ReadFlagOf(FlagText(b) + t, b, SkipMultispace(t));
  }

  lemma ReadFlagOf(s: string, b: bool, rest: string)
    requires BoolFlag(s) == Done(b, rest)
    ensures ReadArg(FlagKind, s) == Done(Flag(b), rest)
  {
    FlagArgOf(s, b, rest);
    FlagKindReads(s, Done(Flag(b), rest));
  }

  lemma FlagArgOf(s: string, b: bool, rest: string)
    requires BoolFlag(s) == Done(b, rest)
    ensures ReadFlagArg(s) == Done(Flag(b), rest)
  {
  }

  lemma FlagKindReads(s: string, r: Parsed<Arg>)
    requires ReadFlagArg(s) == r
    ensures ReadArg(FlagKind, s) == r
  {
  }

  lemma ArgsTextHead(args: seq<Arg>, t: string)
    requires |args| > 0
    ensures |ArgsText(args) + t| > 0 && !IsMultispace((ArgsText(args) + t)[0])
  {
    assert (ArgsText(args) + t)[0] == ArgsText(args)[0];
  }

  /** `ReadArgs` from its first step and the rest. */
  lemma ReadArgsStep(kinds: seq<ArgKind>, s: string, a: Arg, rest: string, more: seq<Arg>, rest': string)
    requires kinds != []
    requires ReadArg(kinds[0], s) == Done(a, rest)
    requires ReadArgs(kinds[1..], rest) == Done(more, rest')
    ensures ReadArgs(kinds, s) == Done([a] + more, rest')
  {
  }

  /** The text of two or more arguments: the first, a space, the others. */
  lemma ArgsTextCons(args: seq<Arg>, t: string)
    requires |args| > 1
    ensures ArgsText(args) + t == ArgText(args[0]) + (" " + (ArgsText(args[1..]) + t))
  {
    var a := ArgText(args[0]);
    var b := ArgsText(args[1..]);
    assert ArgsText(args) == a + " " + b;
    Assoc(a, " ", b);
    Assoc(a, " " + b, t);
    Assoc(" ", b, t);
  }

  /** Rendered arguments read back as the same list, with the whitespace after them. */
  lemma {:induction false} ReadArgsRoundTrip(args: seq<Arg>, t: string)
    requires |args| > 0
    requires forall i :: 0 <= i < |args| ==> WellFormedArg(args[i])
    requires ArgEnds(args[|args| - 1], t)
    ensures ReadArgs(KindsOf(args), ArgsText(args) + t) == Done(args, SkipMultispace(t))
    decreases |args|
  {
    if |args| == 1 {
      ReadOneArg(args, t);
    } else {
      var more := args[1..];
      assert more[|more| - 1] == args[|args| - 1];
      assert forall i :: 0 <= i < |more| ==> more[i] == args[i + 1];
      ReadArgsRoundTrip(more, t);
      ReadMoreArgs(args, t);
    }
  }

  lemma ReadOneArg(args: seq<Arg>, t: string)
    requires |args| == 1 && WellFormedArg(args[0]) && ArgEnds(args[0], t)
    ensures ReadArgs(KindsOf(args), ArgsText(args) + t) == Done(args, SkipMultispace(t))
  {
    var a := args[0];
    var kinds := KindsOf(args);
    assert ArgsText(args) == ArgText(a);
    ReadArgRoundTrip(a, t);
    assert kinds[1..] == [];
    assert ReadArgs(kinds[1..], SkipMultispace(t)) == Done([], SkipMultispace(t));
    ReadArgsStep(kinds, ArgsText(args) + t, a, SkipMultispace(t), [], SkipMultispace(t));
    assert [a] + [] == args;
  }

  lemma ReadMoreArgs(args: seq<Arg>, t: string)
    requires |args| > 1 && WellFormedArg(args[0])
    requires ReadArgs(KindsOf(args[1..]), ArgsText(args[1..]) + t) == Done(args[1..], SkipMultispace(t))
    ensures ReadArgs(KindsOf(args), ArgsText(args) + t) == Done(args, SkipMultispace(t))
  {
    var a := args[0];
    var kinds := KindsOf(args);
    var more := args[1..];
    var u := ArgsText(more) + t;
    ArgsTextCons(args, t);
    ReadArgRoundTrip(a, " " + u);
    SkipOneSpace(u);
    ArgsTextHead(more, t);
    SkipMultispaceNoop(u);
    KindsTail(args);
    ReadArgsStep(kinds, ArgsText(args) + t, a, u, more, SkipMultispace(t));
    ConsSplit(args);
  }

  lemma KindsTail(args: seq<Arg>)
    requires |args| > 0
    ensures KindsOf(args)[1..] == KindsOf(args[1..])
  {
    var k := KindsOf(args);
    forall i | 0 <= i < |args| - 1
      ensures k[1..][i] == KindsOf(args[1..])[i]
    {
      assert args[1..][i] == args[i + 1];
    }
  }

  /** The letter of a rendered command reads back with its case. */
  lemma LetterRoundTrip(lower: char, upper: char, relative: bool, t: string)
    requires lower != upper && !IsMultispace(lower) && !IsMultispace(upper)
    ensures Trim(s' => LetterParse(lower, upper, s'), CaseLetter(lower, upper, relative) + t)
              == Done(relative, SkipMultispace(t))
  {
    var s := CaseLetter(lower, upper, relative) + t;
    assert s[0] == CaseLetter(lower, upper, relative)[0];
    assert s[1..] == t;
    TrimDone(s' => LetterParse(lower, upper, s'), s, relative, t);
  }

  /** A rendered command reads back as its case and its arguments. */
  lemma ReadLetterArgsRoundTrip(lower: char, upper: char, relative: bool, args: seq<Arg>, t: string)
    requires lower != upper && !IsMultispace(lower) && !IsMultispace(upper)
    requires |args| > 0
    requires forall i :: 0 <= i < |args| ==> WellFormedArg(args[i])
    requires ArgEnds(args[|args| - 1], t)
    ensures ReadLetterArgs(lower, upper, KindsOf(args), CommandLine(lower, upper, relative, args) + t)
              == Done((relative, args), SkipMultispace(t))
  {
    var letter := CaseLetter(lower, upper, relative);
    var u := ArgsText(args) + t;
    Assoc(letter, " ", ArgsText(args));
    Assoc(letter + " ", ArgsText(args), t);
    Assoc(letter, " ", u);
    LetterRoundTrip(lower, upper, relative, " " + u);
    SkipOneSpace(u);
    ArgsTextHead(args, t);
    SkipMultispaceNoop(u);
    ReadArgsRoundTrip(args, t);
    SkipMultispaceIdem(t);
  }
}
