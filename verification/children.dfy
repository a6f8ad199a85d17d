/**
 * `Child` (`src/children/mod.rs`): the supported shape elements inside `<svg>`,
 * the reader of one self-closing element, and `many0` over it.
 */
module Children {
  import opened Wrappers
  import opened Text
  import opened Decimal
  import opened Common
  import opened ShapeAttributes
  import opened PathElement
  import opened CircleElement
  import opened EllipseElement
  import opened LineElement
  import opened RectElement

  datatype Child =
    | CircleChild(circle: Circle)
    | EllipseChild(ellipse: Ellipse)
    | LineChild(line: Line)
    | PathChild(path: Path)
    | RectChild(rect: Rect)

  /** The element names, in the order `which` tries them. */
  const ChildNames: seq<string> := ["path", "circle", "rect", "line", "ellipse"]

  /** `FromStr for Child`: the default element of a supported name. */
  function ChildFromStr(s: string): (r: Result<Child>)
    ensures !r.Panic?
    ensures r.Ok? <==> s in ChildNames
    ensures r.Err? ==> r.msg == "Unsupported children: " + s
  {
    if s == "circle" then Ok(CircleChild(EmptyCircle))
    else if s == "ellipse" then Ok(EllipseChild(EmptyEllipse))
    else if s == "line" then Ok(LineChild(EmptyLine))
    else if s == "path" then Ok(PathChild(EmptyPath))
    else if s == "rect" then Ok(RectChild(EmptyRect))
    else Err("Unsupported children: " + s)
  }

  /** The name of the element a child is. */
  function ChildName(c: Child): string {
    match c
    case CircleChild(_) => "circle"
    case EllipseChild(_) => "ellipse"
    case LineChild(_) => "line"
    case PathChild(_) => "path"
    case RectChild(_) => "rect"
  }

  /** Two children of the same element. */
  predicate SameKind(a: Child, b: Child) {
    && (a.CircleChild? <==> b.CircleChild?)
    && (a.EllipseChild? <==> b.EllipseChild?)
    && (a.LineChild? <==> b.LineChild?)
    && (a.PathChild? <==> b.PathChild?)
    && (a.RectChild? <==> b.RectChild?)
  }

  /** Each supported name gives the default element of that name. */
  lemma ChildFromStrName(s: string)
    requires s in ChildNames
    ensures ChildFromStr(s).Ok? && ChildName(ChildFromStr(s).value) == s
  {
  }

  /** `alt((tag(n1), tag(n2), ...))`: the first of the names the text starts with. */
  function FirstPrefix(names: seq<string>, s: string): (r: Option<string>)
    ensures r.Some? ==> r.value in names && StartsWith(s, r.value)
    ensures r.None? <==> forall i :: 0 <= i < |names| ==> !StartsWith(s, names[i])
  {
    if names == [] then None
    else if StartsWith(s, names[0]) then Some(names[0])
    else
      var r := FirstPrefix(names[1..], s);
      assert forall i :: 1 <= i < |names| ==> names[i] == names[1..][i - 1];
      r
  }

  /** `trim(tag(c))`: whitespace, the character, whitespace; the text after it. */
  function Punct(c: char, s: string): (r: Option<string>)
    ensures r.Some? ==> |r.value| < |s| && (r.value == [] || !IsMultispace(r.value[0]))
  {
    var u := SkipMultispace(s);
    if |u| > 0 && u[0] == c then Some(SkipMultispace(u[1..])) else None
  }

  /**
   * `Child::which`: `<` with whitespace around it, then the first supported
   * element name the text starts with, read as the default element of that name.
   */
  function Which(s: string): (r: Parsed<Child>)
    ensures !r.Abort?
    ensures r.Done? ==> |r.rest| < |s|
  {
    match Punct('<', s)
    case None => NoMatch
    case Some(v) =>
      match FirstPrefix(ChildNames, v)
      case None => NoMatch
      case Some(name) =>
        match ChildFromStr(name)
        case Ok(c) => Done(c, v[|name|..])
        case _ => Abort
  }

  function ReadPath(s: string): (r: Parsed<Child>)
    ensures !r.NoMatch?
    ensures r.Done? ==> |r.rest| <= |s| && r.value.PathChild?
  {
    match PathFromStr(s) case Done(p, rest) => Done(PathChild(p), rest) case _ => Abort
  }

  function ReadCircle(s: string): (r: Parsed<Child>)
    ensures !r.NoMatch?
    ensures r.Done? ==> |r.rest| <= |s| && r.value.CircleChild?
  {
    match CircleFromStr(s) case Done(c, rest) => Done(CircleChild(c), rest) case _ => Abort
  }

  function ReadRect(s: string): (r: Parsed<Child>)
    ensures !r.NoMatch?
    ensures r.Done? ==> |r.rest| <= |s| && r.value.RectChild?
  {
    match RectFromStr(s) case Done(x, rest) => Done(RectChild(x), rest) case _ => Abort
  }

  function ReadLine(s: string): (r: Parsed<Child>)
    ensures !r.NoMatch?
    ensures r.Done? ==> |r.rest| <= |s| && r.value.LineChild?
  {
    match LineFromStr(s) case Done(l, rest) => Done(LineChild(l), rest) case _ => Abort
  }

  function ReadEllipse(s: string): (r: Parsed<Child>)
    ensures !r.NoMatch?
    ensures r.Done? ==> |r.rest| <= |s| && r.value.EllipseChild?
  {
    match EllipseFromStr(s) case Done(e, rest) => Done(EllipseChild(e), rest) case _ => Abort
  }

  /** The `from_str` of each element, as a reader of children. */
  function ReaderOf(kind: Child): string -> Parsed<Child> {
    match kind
    case PathChild(_) => ReadPath
    case CircleChild(_) => ReadCircle
    case RectChild(_) => ReadRect
    case LineChild(_) => ReadLine
    case EllipseChild(_) => ReadEllipse
  }

  /** The `from_str` of the element `which` chose, on the text after its name. */
  function ReadElement(kind: Child, s: string): (r: Parsed<Child>)
    ensures !r.NoMatch?
    ensures r.Done? ==> |r.rest| <= |s| && SameKind(r.value, kind)
  {
    ReaderOf(kind)(s)
  }

  /**
   * `single`: `which`, the element's attributes, then `/` and `>`, each with
   * whitespace around it. A missing `/` or `>` does not match; a bad attribute
   * value aborts.
   */
  function Single(s: string): (r: Parsed<Child>)
    ensures r.Done? ==> |r.rest| < |s|
  {
    match Which(s)
    case Done(kind, s1) =>
      (match ReadElement(kind, s1)
       case Done(child, s2) =>
         (match Punct('/', s2)
          case Some(s3) =>
            (match Punct('>', s3)
             case Some(s4) => Done(child, s4)
             case None => NoMatch)
          case None => NoMatch)
       case _ => Abort)
    case NoMatch => NoMatch
    case Abort => Abort
  }

  /**
   * `Child::parser`, nom's `many0(single)`: the children in document order, up to
   * the first text that is not a complete supported element, which is the rest.
   * It never fails to match; only a bad attribute value aborts.
   */
  function ChildrenParser(s: string): (r: Parsed<seq<Child>>)
    ensures !r.NoMatch?
    ensures r.Done? ==> |r.rest| <= |s| && Single(r.rest).NoMatch?
    decreases |s|
  {
    match Single(s)
    case Done(c, rest) =>
      (match ChildrenParser(rest)
       case Done(cs, rest') => Done([c] + cs, rest')
       case _ => Abort)
    case NoMatch => Done([], s)
    case Abort => Abort
  }

  // ------------------------------------------------------------ Display

  /** `Display for Child`: the element's own text. */
  function ChildText(c: Child): string {
    match c
    case CircleChild(x) => CircleText(x)
    case EllipseChild(x) => EllipseText(x)
    case LineChild(x) => LineText(x)
    case PathChild(x) => PathText(x)
    case RectChild(x) => RectText(x)
  }

  /** The children one after the other, with nothing between them. */
  function ChildrenText(cs: seq<Child>): string {
    if cs == [] then "" else ChildText(cs[0]) + ChildrenText(cs[1..])
  }

  predicate WellFormedChild(c: Child) {
    match c
    case CircleChild(x) => WellFormedCircle(x)
    case EllipseChild(x) => WellFormedEllipse(x)
    case LineChild(x) => WellFormedLine(x)
    case PathChild(x) => WellFormedCommon(x.common) && QuoteFree(DText(x))
    case RectChild(x) => WellFormedRect(x)
  }

  /** A written circle reads back without its common attributes and with absent numbers as 0. */
  function CircleReread(x: Circle): Circle {
    Circle(EmptyCommon, Some(OrZero(x.cx)), Some(OrZero(x.cy)), Some(OrZero(x.r)))
  }

  /** A written ellipse reads back with absent centre coordinates as 0. */
  function EllipseReread(x: Ellipse): Ellipse {
    Ellipse(x.common, Some(OrZero(x.cx)), Some(OrZero(x.cy)), x.rx, x.ry)
  }

  /** A written line reads back with absent end points as 0. */
  function LineReread(x: Line): Line {
    Line(x.common, Some(OrZero(x.x1)), Some(OrZero(x.y1)), Some(OrZero(x.x2)), Some(OrZero(x.y2)))
  }

  /** A written path reads back with its `d` text, which is empty when there are no commands. */
  function PathReread(x: Path): Path {
    Path(x.common, Some(DText(x)))
  }

  /** A written rectangle reads back with its position in its common value and absent sizes as 0. */
  function RectReread(x: Rect): Rect {
    Rect(Placed(x), None, None, Some(OrZero(x.width)), Some(OrZero(x.height)),
         Some(OrZero(x.rx)), Some(OrZero(x.ry)))
  }

  /** What a written child reads back as. */
  function Reread(c: Child): Child {
    match c
    case CircleChild(x) => CircleChild(CircleReread(x))
    case EllipseChild(x) => EllipseChild(EllipseReread(x))
    case LineChild(x) => LineChild(LineReread(x))
    case PathChild(x) => PathChild(PathReread(x))
    case RectChild(x) => RectChild(RectReread(x))
  }

  /** Reading back is stable: a child already read back reads back as itself. */
  lemma RereadIdempotent(c: Child)
    ensures Reread(Reread(c)) == Reread(c)
    ensures ChildName(Reread(c)) == ChildName(c)
  {
  }

  // ------------------------------------------------------------ reading back

  /** The element names start with five different letters, so at most one matches. */
  lemma NamePicked(name: string, rest: string)
    requires name in ChildNames
    ensures FirstPrefix(ChildNames, name + rest) == Some(name)
  {
    var s := name + rest;
    forall i | 0 <= i < |ChildNames| && StartsWith(s, ChildNames[i])
      ensures ChildNames[i] == name
    {
      assert s[0] == ChildNames[i][0];
      assert s[0] == name[0];
    }
  }

  /** `which` on `<`, a name and what follows: the default element of that name. */
  lemma WhichOf(name: string, rest: string)
    requires name in ChildNames
    ensures Which("<" + (name + rest)) == Done(ChildFromStr(name).value, rest)
  {
    var s := "<" + (name + rest);
    SkipMultispaceNoop(s);
    assert s[1..] == name + rest;
    assert (name + rest)[0] == name[0];
    SkipMultispaceNoop(name + rest);
    NamePicked(name, rest);
    assert (name + rest)[|name|..] == rest;
  }

  /** The close of a self-closing element: `/`, `>`, and the whitespace after it. */
  lemma CloseOf(t: string)
    ensures Punct('/', "/>" + t) == Some(">" + t)
    ensures Punct('>', ">" + t) == Some(SkipMultispace(t))
  {
    SkipMultispaceNoop("/>" + t);
    assert ("/>" + t)[1..] == ">" + t;
    SkipMultispaceNoop(">" + t);
    assert (">" + t)[1..] == t;
  }

  lemma SingleSteps(s: string, kind: Child, s1: string, child: Child, t: string)
    requires Which(s) == Done(kind, s1)
    requires ReadElement(kind, s1) == Done(child, "/>" + t)
    ensures Single(s) == Done(child, SkipMultispace(t))
  {
    CloseOf(t);
  }

  /** The tail that follows an element's attributes in the text being read. */
  predicate Closes(t: string) {
    t == [] || !IsWhitespace(t[|t| - 1])
  }

  lemma CloseTail(t: string)
    requires Closes(t)
    ensures var u := "/>" + t;
            |u| > 0 && !IsWhitespace(u[0]) && !IsAlphanumeric(u[0]) && !IsWhitespace(u[|u| - 1])
  {
    var u := "/>" + t;
    if t != [] {
      assert u[|u| - 1] == t[|t| - 1];
    }
  }

  /** The opening of each element is `<` followed by its name. */
  lemma OpenTags()
    ensures "<circle" == "<" + "circle" && "<ellipse" == "<" + "ellipse" && "<line" == "<" + "line"
    ensures "<path" == "<" + "path" && "<rect" == "<" + "rect"
  {
  }

  /** `"<name" + body + "/>" + t`, regrouped the way `single` reads it. */
  lemma ElementText(name: string, body: string, t: string)
    ensures ("<" + name) + body + "/>" + t == "<" + (name + (body + ("/>" + t)))
  {
    Assoc("<" + name, body, "/>");
    Assoc("<" + name, body + "/>", t);
    Assoc(body, "/>", t);
    Assoc("<", name, body + ("/>" + t));
  }

  /**
   * `single` on `<`, a supported name, attributes its element reads up to `/>`,
   * and a tail: the element that was read, and the tail after its whitespace.
   */
  lemma ElementReadBack(name: string, body: string, t: string, child: Child)
    requires name in ChildNames
    requires ReadElement(ChildFromStr(name).value, body + ("/>" + t)) == Done(child, "/>" + t)
    ensures Single(("<" + name) + body + "/>" + t) == Done(child, SkipMultispace(t))
  {
    ElementText(name, body, t);
    WhichOf(name, body + ("/>" + t));
    SingleSteps("<" + (name + (body + ("/>" + t))), ChildFromStr(name).value, body + ("/>" + t), child, t);
  }

  /** The element names and the empty child each one picks. */
  lemma NamesRead()
    ensures ChildFromStr("circle") == Ok(CircleChild(EmptyCircle)) && "circle" in ChildNames
    ensures ChildFromStr("ellipse") == Ok(EllipseChild(EmptyEllipse)) && "ellipse" in ChildNames
    ensures ChildFromStr("line") == Ok(LineChild(EmptyLine)) && "line" in ChildNames
    ensures ChildFromStr("path") == Ok(PathChild(EmptyPath)) && "path" in ChildNames
    ensures ChildFromStr("rect") == Ok(RectChild(EmptyRect)) && "rect" in ChildNames
  {
    assert ChildNames[1] == "circle" && ChildNames[4] == "ellipse" && ChildNames[3] == "line";
    assert ChildNames[0] == "path" && ChildNames[2] == "rect";
  }

  /** The attribute text an element writes between its name and `/>`. */
  function ChildBody(c: Child): string {
    match c
    case CircleChild(x) => CircleBody(x)
    case EllipseChild(x) => EllipseBody(x)
    case LineChild(x) => LineBody(x)
    case PathChild(x) => PathBody(x)
    case RectChild(x) => RectBody(x)
  }

  /** Every element is written as `<`, its name, its attribute text and `/>`. */
  lemma ChildTextParts(c: Child)
    ensures ChildText(c) == ("<" + ChildName(c)) + ChildBody(c) + "/>"
  {
    OpenTags();
  }

  /** The default element of the same kind as `c`. */
  function Blank(c: Child): Child {
    match c
    case CircleChild(_) => CircleChild(EmptyCircle)
    case EllipseChild(_) => EllipseChild(EmptyEllipse)
    case LineChild(_) => LineChild(EmptyLine)
    case PathChild(_) => PathChild(EmptyPath)
    case RectChild(_) => RectChild(EmptyRect)
  }

  /** An element's name is supported and reads as the default element of its kind. */
  lemma NameReadsBlank(c: Child)
    ensures ChildName(c) in ChildNames && ChildFromStr(ChildName(c)) == Ok(Blank(c))
  {
    NamesRead();
  }

  /** The reader of an element's kind reads its attribute text back, up to the `/>` that closes it. */
  lemma BlankReadBack(c: Child, t: string)
    requires WellFormedChild(c) && Closes(t)
    ensures ReadElement(Blank(c), ChildBody(c) + ("/>" + t)) == Done(Reread(c), "/>" + t)
  {
    var u := "/>" + t;
    CloseTail(t);
    match c
    case CircleChild(x) =>
      CircleReadBack(x, u);
      assert ReaderOf(CircleChild(EmptyCircle)) == ReadCircle;
    case EllipseChild(x) =>
      EllipseReadBack(x, u);
      assert ReaderOf(EllipseChild(EmptyEllipse)) == ReadEllipse;
    case LineChild(x) =>
      LineReadBack(x, u);
      assert ReaderOf(LineChild(EmptyLine)) == ReadLine;
    case PathChild(x) =>
      PathReadBack(x, u);
      assert ReaderOf(PathChild(EmptyPath)) == ReadPath;
    case RectChild(x) =>
      RectReadBack(x, u);
      assert ReaderOf(RectChild(EmptyRect)) == ReadRect;
  }

  /**
   * Reading one written child: `single` reads it back as `Reread` of it and stops
   * after the whitespace that follows it.
   */
  lemma ChildReadBack(c: Child, t: string)
    requires WellFormedChild(c) && Closes(t)
    ensures Single(ChildText(c) + t) == Done(Reread(c), SkipMultispace(t))
  {
    ChildTextParts(c);
    NameReadsBlank(c);
    BlankReadBack(c, t);
    ElementReadBack(ChildName(c), ChildBody(c), t, Reread(c));
  }

  /** The children that a list of written children reads back as. */
  function RereadAll(cs: seq<Child>): (r: seq<Child>)
    ensures |r| == |cs|
  {
    if cs == [] then [] else [Reread(cs[0])] + RereadAll(cs[1..])
  }

  /** Every written element starts with `<` and ends with `>`. */
  lemma ChildTextEnds(c: Child)
    ensures var w := ChildText(c); |w| > 1 && w[0] == '<' && w[|w| - 1] == '>'
  {
    var w := ChildText(c);
    ChildTextParts(c);
    assert w == ("<" + ChildName(c)) + ChildBody(c) + "/>";
  }

  /** A tail that `single` can start reading at, and that ends in no whitespace. */
  predicate ReadableTail(t: string) {
    Closes(t) && (t == [] || !IsMultispace(t[0]))
  }

  /** Written children in front of a readable tail leave it readable. */
  lemma {:induction false} ChildrenTextTail(cs: seq<Child>, t: string)
    requires ReadableTail(t)
    ensures ReadableTail(ChildrenText(cs) + t)
  {
    if cs != [] {
      var w := ChildText(cs[0]);
      var tail := ChildrenText(cs[1..]) + t;
      ChildrenTextTail(cs[1..], t);
      ChildTextEnds(cs[0]);
      Assoc(w, ChildrenText(cs[1..]), t);
      var u := w + tail;
      assert u[0] == w[0];
      if tail == [] {
        assert u[|u| - 1] == w[|w| - 1];
      } else {
        assert u[|u| - 1] == tail[|tail| - 1];
      }
    }
  }

  /**
   * Reading written children: `many0(single)` reads every one of them back, in
   * order, and stops at a tail that is not an element.
   */
  lemma {:induction false} ChildrenReadBack(cs: seq<Child>, t: string)
    requires forall i :: 0 <= i < |cs| ==> WellFormedChild(cs[i])
    requires ReadableTail(t) && Single(t).NoMatch?
    ensures ChildrenParser(ChildrenText(cs) + t) == Done(RereadAll(cs), t)
  {
    if cs == [] {
      assert ChildrenText(cs) + t == t;
    } else {
      var tail := ChildrenText(cs[1..]) + t;
      Assoc(ChildText(cs[0]), ChildrenText(cs[1..]), t);
      ChildrenTextTail(cs[1..], t);
      ChildReadBack(cs[0], tail);
      SkipMultispaceNoop(tail);
      ChildrenReadBack(cs[1..], t);
    }
  }
}
