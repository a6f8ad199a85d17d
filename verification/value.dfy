/**
 * `Auto<T>` (`src/value.rs`): an attribute value that is either the keyword `auto`
 * (held as `None`) or a value of `T`.
 *
 * The model is generic in `T` through the two functions the crate uses from it:
 * `parse` (its `FromStr`) and `render` (its `Display`).
 */
module Value {
  import opened Wrappers
  import opened Text
  import opened Decimal
  import opened Float

  datatype Auto<T> = Auto(inner: Option<T>)

  /** `Default`: the `auto` keyword, which renders as `auto`. */
  function AutoDefault<T>(render: T -> string): (a: Auto<T>)
    ensures AutoRender(a, render) == "auto"
  {
    Auto(None)
  }

  /** Rust's `{:?}` for a string, without escape sequences. */
  function Quoted(s: string): string {
    "\"" + s + "\""
  }

  /**
   * `FromStr`: trims the text, reads `auto` as `None`, and otherwise parses a `T`.
   * A failed parse is an error, never `auto`.
   */
  function AutoFromStr<T>(s: string, parse: string -> Result<T>): (r: Result<Auto<T>>)
    ensures !r.Panic?
    ensures StrTrim(s) == "auto" ==> r == Ok(Auto(None))
    ensures StrTrim(s) != "auto" ==> (r.Ok? <==> parse(StrTrim(s)).Ok?)
    ensures r.Ok? && r.value.inner.None? ==> StrTrim(s) == "auto"
    ensures r.Ok? && r.value.inner.Some? ==> parse(StrTrim(s)) == Ok(r.value.inner.value)
    ensures r.Err? ==> r.msg == "parse error" + Quoted(StrTrim(s))
  {
    var u := StrTrim(s);
    if u == "auto" then Ok(Auto(None))
    else
      match parse(u)
      case Ok(v) => Ok(Auto(Some(v)))
      case _ => Err("parse error" + Quoted(u))
  }

  /** `Display`: `auto`, or the text of the value. */
  function AutoRender<T>(a: Auto<T>, render: T -> string): string {
    match a.inner
    case None => "auto"
    case Some(v) => render(v)
  }

  /**
   * `PartialEq`: two values compare as values, two `auto`s are equal, and `auto`
   * equals a value exactly when that value renders as `auto`.
   */
  predicate AutoEq<T(==)>(a: Auto<T>, b: Auto<T>, render: T -> string) {
    match (a.inner, b.inner)
    case (Some(x), Some(y)) => x == y
    case (None, None) => true
    case (None, Some(v)) => render(v) == "auto"
    case (Some(v), None) => render(v) == "auto"
  }

  lemma AutoEqSymmetric<T>(a: Auto<T>, b: Auto<T>, render: T -> string)
    ensures AutoEq(a, b, render) <==> AutoEq(b, a, render)
  {
  }

  /** `auto` and a value are equal exactly when the value's text is `auto`. */
  lemma AutoEqMixed<T>(v: T, render: T -> string)
    ensures AutoEq(Auto(None), Auto(Some(v)), render) <==> AutoRender(Auto(Some(v)), render) == "auto"
    ensures AutoEq(Auto(Some(v)), Auto(None), render) <==> AutoRender(Auto(Some(v)), render) == "auto"
  {
  }

  /**
   * `get_from_map`: an absent key is `auto`; a present one goes through `from_str`,
   * whose error is unwrapped into an abort.
   */
  function GetFromMap<T>(m: map<string, string>, k: string, parse: string -> Result<T>)
    : (r: Result<Auto<T>>)
    ensures k !in m ==> r == Ok(Auto(None))
    ensures k in m ==> (r.Ok? <==> AutoFromStr(m[k], parse).Ok?)
    ensures k in m && r.Ok? ==> r == AutoFromStr(m[k], parse)
    ensures !r.Err?
  {
    if k in m then
      match AutoFromStr(m[k], parse)
      case Ok(a) => Ok(a)
      case _ => Panic
    else
      Ok(Auto(None))
  }

  /**
   * Reading back a rendered `Auto` gives a value equal to the original under
   * `AutoEq`, whenever the inner value's own text reads back and has no
   * surrounding whitespace.
   */
  lemma AutoRoundTrip<T>(a: Auto<T>, parse: string -> Result<T>, render: T -> string)
    requires a.inner.Some? ==> var v := a.inner.value;
               StrTrim(render(v)) == render(v) && parse(render(v)) == Ok(v)
    ensures AutoFromStr(AutoRender(a, render), parse).Ok?
    ensures AutoEq(AutoFromStr(AutoRender(a, render), parse).value, a, render)
  {
    if a.inner.None? {
      assert StrTrim("auto") == "auto" by { StrTrimNoop("auto"); }
    }
  }

  // ---------------------------------------------------- `Auto<f32>`

  /** No number renders as `auto`, so on numbers `AutoEq` is plain equality. */
  lemma NumAutoEq(a: Auto<Num>, b: Auto<Num>)
    ensures AutoEq(a, b, NumText) <==> a == b
  {
    if a.inner.Some? {
      NumTextHead(a.inner.value);
    }
    if b.inner.Some? {
      NumTextHead(b.inner.value);
    }
  }

  /** A rendered `Auto<f32>` reads back as itself. */
  lemma NumAutoRoundTrip(a: Auto<Num>)
    requires a.inner.Some? ==> Canonical(a.inner.value)
    ensures AutoFromStr(AutoRender(a, NumText), ParseF32) == Ok(a)
  {
    if a.inner.Some? {
      var v := a.inner.value;
      NumTextEdges(v);
      StrTrimNoop(NumText(v));
      ParseF32RoundTrip(v);
    }
    AutoRoundTrip(a, ParseF32, NumText);
    NumAutoEq(AutoFromStr(AutoRender(a, NumText), ParseF32).value, a);
  }
}
