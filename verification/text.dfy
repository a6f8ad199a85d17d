/**
 * Character classes and the few `str` operations of Rust and nom that the crate
 * relies on: nom's `multispace0`/`space1`, Rust's `trim`, `starts_with`,
 * `trim_start_matches` and `split_whitespace`.
 */
module Text {

  predicate IsDigit(c: char) { '0' <= c <= '9' }

  /** nom's `alphanumeric1` on `&str`: ASCII letters and digits */
  predicate IsAlphanumeric(c: char) {
    IsDigit(c) || 'a' <= c <= 'z' || 'A' <= c <= 'Z'
  }

  /** nom's `multispace0`: space, tab, carriage return, line feed */
  predicate IsMultispace(c: char) { c == ' ' || c == '\t' || c == '\r' || c == '\n' }

  /** nom's `space1`: space and tab */
  predicate IsSpace(c: char) { c == ' ' || c == '\t' }

  /** The Unicode White_Space property, used by Rust's `str::trim` and `split_whitespace` */
  predicate IsWhitespace(c: char) {
    || '\t' <= c <= '\r'
    || c == ' '
    || c == '\U{85}'
    || c == '\U{A0}'
    || c == '\U{1680}'
    || '\U{2000}' <= c <= '\U{200A}'
    || c == '\U{2028}'
    || c == '\U{2029}'
    || c == '\U{202F}'
    || c == '\U{205F}'
    || c == '\U{3000}'
  }

  /** A digit or a sign is not whitespace. */
  lemma NumberCharNotWhitespace(c: char)
    requires IsDigit(c) || c == '-' || c == '+' || c == '.'
    ensures !IsWhitespace(c) && !IsMultispace(c)
  {
  }

  lemma NumberCharNotSpace(c: char)
    requires IsDigit(c) || c == '-' || c == '+' || c == '.'
    ensures !IsSpace(c)
  {
  }

  lemma SpaceIsMultispace()
    ensures AllMultispace(" ")
  {
  }

  lemma AlphanumericNotSpace(c: char)
    requires IsAlphanumeric(c)
    ensures !IsMultispace(c) && !IsWhitespace(c)
  {
  }

  predicate AllMultispace(s: string) {
    forall i :: 0 <= i < |s| ==> IsMultispace(s[i])
  }

  predicate NoWhitespace(s: string) {
    forall i :: 0 <= i < |s| ==> !IsWhitespace(s[i])
  }

  predicate QuoteFree(s: string) {
    forall i :: 0 <= i < |s| ==> s[i] != '"'
  }

  predicate IsSuffix(r: string, s: string) {
    |r| <= |s| && r == s[|s| - |r|..]
  }

  predicate StartsWith(s: string, p: string) {
    |p| <= |s| && s[..|p|] == p
  }

  /** Drops the leading run of nom multispace characters. */
  function SkipMultispace(s: string): (r: string)
    ensures IsSuffix(r, s)
    ensures AllMultispace(s[..|s| - |r|])
    ensures r == [] || !IsMultispace(r[0])
  {
    if |s| > 0 && IsMultispace(s[0]) then SkipMultispace(s[1..]) else s
  }

  /** Rust's `str::trim_start` */
  function TrimStart(s: string): (r: string)
    ensures IsSuffix(r, s)
    ensures forall i :: 0 <= i < |s| - |r| ==> IsWhitespace(s[i])
    ensures r == [] || !IsWhitespace(r[0])
  {
    if |s| > 0 && IsWhitespace(s[0]) then TrimStart(s[1..]) else s
  }

  /** Rust's `str::trim_end` */
  function TrimEnd(s: string): (r: string)
    ensures |r| <= |s| && r == s[..|r|]
    ensures forall i :: |r| <= i < |s| ==> IsWhitespace(s[i])
    ensures r == [] || !IsWhitespace(r[|r| - 1])
  {
    if |s| > 0 && IsWhitespace(s[|s| - 1]) then TrimEnd(s[..|s| - 1]) else s
  }

  /** Rust's `str::trim` */
  function StrTrim(s: string): (r: string)
    ensures |r| <= |s|
  {
    TrimEnd(TrimStart(s))
  }

  /** Rust's `str::trim_start_matches` with a non-empty literal pattern */
  function TrimStartMatches(s: string, p: string): (r: string)
    requires |p| > 0
    ensures IsSuffix(r, s)
    ensures !StartsWith(r, p)
    decreases |s|
  {
    if StartsWith(s, p) then TrimStartMatches(s[|p|..], p) else s
  }

  /** Length of the leading run of non-whitespace characters */
  function TokenSpan(s: string): (n: nat)
    ensures n <= |s|
    ensures NoWhitespace(s[..n])
    ensures n == |s| || IsWhitespace(s[n])
  {
    if |s| > 0 && !IsWhitespace(s[0]) then 1 + TokenSpan(s[1..]) else 0
  }

  /** Rust's `str::split_whitespace`: the maximal non-whitespace runs, in order */
  function SplitWhitespace(s: string): (r: seq<string>)
    ensures forall i :: 0 <= i < |r| ==> |r[i]| > 0 && NoWhitespace(r[i])
    decreases |s|
  {
    var t := TrimStart(s);
    if t == [] then []
    else
      var n := TokenSpan(t);
      var rest := SplitWhitespace(t[n..]);
      assert n > 0;
      ConsWords(t[..n], rest);
      [t[..n]] + rest
  }

  lemma ConsWords(w: string, rest: seq<string>)
    requires |w| > 0 && NoWhitespace(w)
    requires forall i :: 0 <= i < |rest| ==> |rest[i]| > 0 && NoWhitespace(rest[i])
    ensures forall i :: 0 <= i < |[w] + rest| ==> |([w] + rest)[i]| > 0 && NoWhitespace(([w] + rest)[i])
  {
    var r := [w] + rest;
    forall i | 0 <= i < |r|
      ensures |r[i]| > 0 && NoWhitespace(r[i])
    {
      if i > 0 {
        assert r[i] == rest[i - 1];
      }
    }
  }

  /** Joins the strings with the separator between consecutive elements (Rust's `join`). */
  function Join(parts: seq<string>, sep: string): string {
    if |parts| == 0 then ""
    else if |parts| == 1 then parts[0]
    else parts[0] + sep + Join(parts[1..], sep)
  }

  lemma SuffixTrans(a: string, b: string, c: string)
    requires IsSuffix(a, b) && IsSuffix(b, c)
    ensures IsSuffix(a, c)
  {
    assert c[|c| - |b|..][|b| - |a|..] == c[|c| - |a|..];
  }

  lemma SuffixDrop(s: string, k: nat)
    requires k <= |s|
    ensures IsSuffix(s[k..], s)
  {
  }

  /** The last character of a joined list with a non-empty last part */
  lemma {:induction false} JoinLast(parts: seq<string>)
    requires |parts| > 0 && |parts[|parts| - 1]| > 0
    ensures |Join(parts, " ")| > 0
    ensures Join(parts, " ")[|Join(parts, " ")| - 1] == parts[|parts| - 1][|parts[|parts| - 1]| - 1]
    decreases |parts|
  {
    if |parts| > 1 {
      assert parts[1..][|parts[1..]| - 1] == parts[|parts| - 1];
      JoinLast(parts[1..]);
    }
  }

  lemma {:induction false} JoinQuoteFree(parts: seq<string>)
    requires forall i :: 0 <= i < |parts| ==> QuoteFree(parts[i])
    ensures QuoteFree(Join(parts, " "))
    decreases |parts|
  {
    if |parts| > 1 {
      JoinQuoteFree(parts[1..]);
    }
  }

  lemma TrimStartNoop(s: string)
    requires s == [] || !IsWhitespace(s[0])
    ensures TrimStart(s) == s
  {
  }

  lemma TrimEndNoop(s: string)
    requires s == [] || !IsWhitespace(s[|s| - 1])
    ensures TrimEnd(s) == s
  {
  }

  lemma StrTrimNoop(s: string)
    requires s == [] || (!IsWhitespace(s[0]) && !IsWhitespace(s[|s| - 1]))
    ensures StrTrim(s) == s
  {
    TrimStartNoop(s);
    TrimEndNoop(s);
  }

  /** Trailing whitespace after text that ends in a non-space is trimmed on its own. */
  lemma {:induction false} TrimEndConcat(a: string, t: string)
    requires |a| > 0 && !IsWhitespace(a[|a| - 1])
    ensures TrimEnd(a + t) == a + TrimEnd(t)
    decreases |t|
  {
    var s := a + t;
    if t == [] {
      assert s == a;
      TrimEndNoop(a);
    } else if IsWhitespace(t[|t| - 1]) {
      assert s[..|s| - 1] == a + t[..|t| - 1];
      TrimEndConcat(a, t[..|t| - 1]);
    } else {
      assert s[|s| - 1] == t[|t| - 1];
      TrimEndNoop(s);
      TrimEndNoop(t);
    }
  }

  lemma StartsWithHead(s: string, p: string)
    requires |s| > 0 && |p| > 0 && s[0] != p[0]
    ensures !StartsWith(s, p)
  {
  }

  /** `trim_start_matches` drops one leading copy of the pattern and goes on. */
  lemma TrimStartMatchesStep(p: string, s: string)
    requires |p| > 0
    ensures StartsWith(p + s, p)
    ensures TrimStartMatches(p + s, p) == TrimStartMatches(s, p)
  {
    assert StartsWith(p + s, p);
    assert (p + s)[|p|..] == s;
  }

  lemma SkipMultispaceNoop(s: string)
    requires s == [] || !IsMultispace(s[0])
    ensures SkipMultispace(s) == s
  {
  }

  /** Skipping a known run of multispace characters in front of a non-space. */
  lemma {:induction false} SkipMultispaceConcat(ws: string, s: string)
    requires AllMultispace(ws)
    ensures SkipMultispace(ws + s) == SkipMultispace(s)
    decreases |ws|
  {
    if ws != [] {
      assert (ws + s)[0] == ws[0] && IsMultispace(ws[0]);
      assert (ws + s)[1..] == ws[1..] + s;
      assert SkipMultispace(ws + s) == SkipMultispace((ws + s)[1..]);
      SkipMultispaceConcat(ws[1..], s);
    } else {
      assert ws + s == s;
    }
  }

  lemma SkipOneSpace(s: string)
    ensures SkipMultispace(" " + s) == SkipMultispace(s)
  {
    assert (" " + s)[0] == ' ';
    assert (" " + s)[1..] == s;
  }

  lemma {:induction false} TokenSpanConcat(tok: string, rest: string)
    requires NoWhitespace(tok)
    requires rest == [] || IsWhitespace(rest[0])
    ensures TokenSpan(tok + rest) == |tok|
    decreases |tok|
  {
    if tok != [] {
      assert (tok + rest)[1..] == tok[1..] + rest;
      TokenSpanConcat(tok[1..], rest);
    }
  }

  /** One step of `SplitWhitespace` over a token followed by a single space. */
  lemma SplitStep(tok: string, rest: string)
    requires |tok| > 0 && NoWhitespace(tok)
    requires rest == [] || !IsWhitespace(rest[0])
    ensures SplitWhitespace(tok + " " + rest) == [tok] + SplitWhitespace(rest)
  {
    var s := tok + " " + rest;
    assert s == tok + (" " + rest);
    TrimStartNoop(s);
    TokenSpanConcat(tok, " " + rest);
    assert s[..|tok|] == tok;
    assert s[|tok|..] == " " + rest;
    assert (" " + rest)[1..] == rest;
    TrimStartNoop(rest);
  }

  /**
   * Splitting on whitespace undoes joining with single spaces, as long as every
   * token is non-empty and whitespace-free.
   */
  lemma {:induction false} SplitJoin(toks: seq<string>)
    requires forall i :: 0 <= i < |toks| ==> |toks[i]| > 0 && NoWhitespace(toks[i])
    ensures SplitWhitespace(Join(toks, " ")) == toks
    decreases |toks|
  {
    if |toks| == 0 {
      SplitEmpty();
    } else if |toks| == 1 {
      SplitSingle(toks[0]);
      assert Join(toks, " ") == toks[0];
    } else {
      var rest := Join(toks[1..], " ");
      var tail := toks[1..];
      assert Join(toks, " ") == toks[0] + " " + rest;
      assert toks[1] == tail[0];
      JoinHead(tail);
      SplitJoin(tail);
      SplitStep(toks[0], rest);
      ConsSplit(toks);
    }
  }

  /** A non-empty sequence is its head followed by its tail. */
  lemma ConsSplit<T>(s: seq<T>)
    requires |s| > 0
    ensures [s[0]] + s[1..] == s
  {
  }

  lemma AppendEmpty<T>(a: seq<T>, b: seq<T>)
    requires a == []
    ensures a + b == b
  {
  }

  lemma HeadOf<T>(a: seq<T>, b: seq<T>)
    requires |a| > 0
    ensures (a + b)[0] == a[0]
  {
  }

  lemma AppendNil<T>(a: seq<T>)
    ensures a + [] == a
  {
  }

  lemma TwoElements<T>(a: T, b: T)
    ensures [a] + [b] == [a, b]
  {
  }

  lemma NestAppend<T>(a: seq<T>, b: seq<T>, c: seq<T>, d: seq<T>, e: seq<T>, f: seq<T>, g: seq<T>)
    ensures (a + (b + (c + (d + (e + f))))) + g == a + (b + (c + (d + (e + (f + g)))))
  {
    Assoc(e, f, g);
    Assoc(d, e + f, g);
    Assoc(c, d + (e + f), g);
    Assoc(b, c + (d + (e + f)), g);
    Assoc(a, b + (c + (d + (e + f))), g);
  }

  lemma Assoc<T>(a: seq<T>, b: seq<T>, c: seq<T>)
    ensures a + b + c == a + (b + c)
  {
  }

  /** Regrouping a concatenation of four strings. */
  lemma Regroup<T>(a: seq<T>, b: seq<T>, c: seq<T>, d: seq<T>)
    ensures a + b + c + d == a + (b + c + d)
    ensures a + b + c + d == a + (b + (c + d))
  {
  }

  lemma SplitEmpty()
    ensures SplitWhitespace("") == []
  {
  }

  lemma SplitSingle(tok: string)
    requires |tok| > 0 && NoWhitespace(tok)
    ensures SplitWhitespace(tok) == [tok]
  {
    TrimStartNoop(tok);
    TokenSpanConcat(tok, "");
    assert tok + "" == tok;
    assert tok[|tok|..] == [];
  }

  lemma JoinHead(parts: seq<string>)
    requires |parts| > 0 && |parts[0]| > 0
    ensures |Join(parts, " ")| > 0 && Join(parts, " ")[0] == parts[0][0]
  {
  }
}
