/**
 * The XML declaration `<?xml version="…" encoding="…"?>` (`src/header.rs`).
 */
module Header {
  import opened Wrappers
  import opened Text
  import opened Parser
  import opened Attributes
  import opened Encode

  datatype Header = Header(version: Option<string>, encoding: Option<Encoding>)

  /**
   * The fold over the declaration's attributes: each `version` and each
   * `encoding` replaces the one before it, other keys are ignored.
   */
  function HeaderOf(kvs: seq<Pair>): (h: Header)
    ensures h.version == LastValue(kvs, "version")
    ensures h.encoding.Some? <==> LastValue(kvs, "encoding").Some?
    ensures h.encoding.Some? ==> h.encoding.value == EncodingFromStr(LastValue(kvs, "encoding").value)
    decreases |kvs|
  {
    if kvs == [] then Header(None, None)
    else
      var init := kvs[..|kvs| - 1];
      var kv := kvs[|kvs| - 1];
      assert kvs == init + [kv];
      LastValueSnoc(init, kv);
      var h := HeaderOf(init);
      if kv.0 == "version" then h.(version := Some(kv.1))
      else if kv.0 == "encoding" then h.(encoding := Some(EncodingFromStr(kv.1)))
      else h
  }

  /**
   * `Header::from_str`: trims the input, requires `<?xml`, drops every leading
   * copy of it, reads the attributes, trims again and requires `?>`, dropping
   * every leading copy of that too. Both refusals are recoverable errors.
   */
  function HeaderFromStr(s: string): (r: Parsed<Header>)
    ensures !r.Abort?
    ensures !StartsWith(StrTrim(s), "<?xml") ==> r.NoMatch?
    ensures StartsWith(StrTrim(s), "<?xml")
            && !StartsWith(StrTrim(ParseProperties(TrimStartMatches(StrTrim(s), "<?xml")).rest), "?>")
            ==> r.NoMatch?
    ensures r.Done? ==> !StartsWith(r.rest, "?>")
  {
    var u := StrTrim(s);
    if !StartsWith(u, "<?xml") then NoMatch
    else
      var props := ParseProperties(TrimStartMatches(u, "<?xml"));
      var after := StrTrim(props.rest);
      if !StartsWith(after, "?>") then NoMatch
      else Done(HeaderOf(props.value), TrimStartMatches(after, "?>"))
  }

  function VersionText(h: Header): string {
    h.version.GetOr("1.0")
  }

  function EncodingOf(h: Header): Encoding {
    h.encoding.GetOr(DefaultEncoding)
  }

  /** `Display`: both attributes are always written, with `1.0` and `UTF-8` for absent ones. */
  function HeaderText(h: Header): string {
    "<?xml version=\"" + VersionText(h) + "\" encoding=\"" + EncodingText(EncodingOf(h)) + "\"?>"
  }

  /** The declaration as the attribute list the parser sees. */
  lemma HeaderTextPairs(h: Header)
    ensures HeaderText(h)
              == "<?xml" + (" " + (PairText("version", VersionText(h))
                 + (" " + (PairText("encoding", EncodingText(EncodingOf(h))) + "?>"))))
  {
    DeclPieces();
    DeclRegroup("<?xml", " ", "version", "=\"", VersionText(h), "\"", "encoding",
                EncodingText(EncodingOf(h)), "?>",
                "<?xml version=\"", "\" encoding=\"", "\"?>");
  }

  lemma DeclPieces()
    ensures "<?xml version=\"" == "<?xml" + " " + "version" + "=\""
    ensures "\" encoding=\"" == "\"" + " " + "encoding" + "=\""
    ensures "\"?>" == "\"" + "?>"
  {
  }

  /** The declaration's text, regrouped from its fixed pieces and its two values. */
  lemma DeclRegroup(x: string, sp: string, k1: string, q: string, v: string, d: string,
                    k2: string, e: string, z: string, a: string, b: string, c: string)
    requires a == x + sp + k1 + q && b == d + sp + k2 + q && c == d + z
    ensures a + v + b + e + c
              == x + (sp + (k1 + q + v + d + (sp + (k2 + q + e + d + z))))
  {
  }

  /** The two attributes of a declaration are read in order and stop at `?>`. */
  lemma HeaderProps(v: string, e: string, r: string)
    requires QuoteFree(v) && QuoteFree(e)
    requires |r| > 0 && r[0] == '?'
    ensures ParseProperties(" " + (PairText("version", v) + (" " + (PairText("encoding", e) + r))))
              == Done([("version", v), ("encoding", e)], r)
  {
    HeaderKeys();
    TwoProps("version", v, "encoding", e, r);
  }

  lemma HeaderKeys()
    ensures IsKey("version", '-') && IsKey("encoding", '-')
  {
  }

  lemma TwoProps(k1: string, v1: string, k2: string, v2: string, r: string)
    requires IsKey(k1, '-') && QuoteFree(v1) && IsKey(k2, '-') && QuoteFree(v2)
    requires |r| > 0 && r[0] == '?'
    ensures ParseProperties(" " + (PairText(k1, v1) + (" " + (PairText(k2, v2) + r))))
              == Done([(k1, v1), (k2, v2)], r)
  {
    var second := PairText(k2, v2) + r;
    var first := PairText(k1, v1) + (" " + second);
    LastProp(k2, v2, r);
    PairTextHead(k2, v2, r);
    FirstProp(k1, v1, second, [(k2, v2)], r);
    TwoElements((k1, v1), (k2, v2));
    TrimPropertyOf(k1, v1, " " + second);
    OneLeadingSpace(first, [(k1, v1), (k2, v2)], r);
  }

  lemma OneLeadingSpace(s: string, kvs: seq<Pair>, r: string)
    requires Trim(ParseProperty, s).Done?
    requires ParseProperties(s) == Done(kvs, r)
    ensures ParseProperties(" " + s) == Done(kvs, r)
  {
    SpaceIsMultispace();
    ParsePropertiesLeading(" ", s);
  }

  /** A last pair followed by text that cannot start a key */
  lemma LastProp(k: string, v: string, r: string)
    requires IsKey(k, '-') && QuoteFree(v)
    requires |r| > 0 && r[0] == '?'
    ensures ParseProperties(PairText(k, v) + r) == Done([(k, v)], r)
  {
    SkipMultispaceNoop(r);
    ParsePropertiesStops(r);
    ParsePropertiesStep(k, v, r, r);
    AppendNil([(k, v)]);
  }

  /** A pair, one space, and a list that starts with a pair */
  lemma FirstProp(k: string, v: string, next: string, tail: seq<Pair>, r: string)
    requires IsKey(k, '-') && QuoteFree(v)
    requires |next| > 0 && IsAlphanumeric(next[0])
    requires ParseProperties(next) == Done(tail, r)
    ensures ParseProperties(PairText(k, v) + (" " + next)) == Done([(k, v)] + tail, r)
  {
    AlphanumericNotSpace(next[0]);
    SkipOneSpace(next);
    SkipMultispaceNoop(next);
    ParsePropertiesStep(k, v, " " + next, next);
  }

  /** After the attributes: the closing `?>` and every copy of it that follows. */
  lemma HeaderClose(t: string)
    requires t == [] || !IsWhitespace(t[|t| - 1])
    ensures StrTrim("?>" + t) == "?>" + t
    ensures StartsWith("?>" + t, "?>")
    ensures TrimStartMatches("?>" + t, "?>") == TrimStartMatches(t, "?>")
  {
    HeaderCloseTrim(t);
    TrimStartMatchesStep("?>", t);
  }

  lemma HeaderCloseTrim(t: string)
    requires t == [] || !IsWhitespace(t[|t| - 1])
    ensures StrTrim("?>" + t) == "?>" + t
  {
    var s := "?>" + t;
    assert s[0] == '?';
    assert s[|s| - 1] == if t == [] then '>' else t[|t| - 1];
    StrTrimNoop(s);
  }

  lemma HeaderPairsLast(v: string, e: string)
    ensures LastValue([("version", v), ("encoding", e)], "version") == Some(v)
    ensures LastValue([("version", v), ("encoding", e)], "encoding") == Some(e)
  {
    var kvs := [("version", v), ("encoding", e)];
    assert kvs[..1] == [("version", v)];
  }

  /** The outer trim keeps the declaration and trims only the text after it. */
  lemma HeaderTrim(h: Header, t: string)
    ensures StrTrim(HeaderText(h) + t) == HeaderText(h) + TrimEnd(t)
  {
    var d := HeaderText(h);
    assert d[0] == '<' && d[|d| - 1] == '>';
    TrimStartNoop(d + t);
    TrimEndConcat(d, t);
  }

  lemma HeaderTextSplit(h: Header, t: string)
    ensures HeaderText(h) + t
              == "<?xml" + (" " + (PairText("version", VersionText(h))
                 + (" " + (PairText("encoding", EncodingText(EncodingOf(h))) + ("?>" + t)))))
  {
    HeaderTextPairs(h);
    NestAppend("<?xml", " ", PairText("version", VersionText(h)), " ",
               PairText("encoding", EncodingText(EncodingOf(h))), "?>", t);
  }

  /**
   * The steps of `from_str` on a trimmed input `<?xml` + `body`: every further
   * leading `<?xml` is dropped before the attributes are read.
   */
  lemma HeaderFromStrOf(s: string, body: string, kvs: seq<Pair>, r: string)
    requires StrTrim(s) == "<?xml" + body
    requires ParseProperties(TrimStartMatches(body, "<?xml")) == Done(kvs, r)
    requires StartsWith(StrTrim(r), "?>")
    ensures HeaderFromStr(s) == Done(HeaderOf(kvs), TrimStartMatches(StrTrim(r), "?>"))
  {
    TrimStartMatchesStep("<?xml", body);
  }

  /** A written declaration is read as its two attributes. */
  lemma HeaderParse(h: Header, t: string)
    requires QuoteFree(VersionText(h)) && QuoteFree(EncodingText(EncodingOf(h)))
    ensures HeaderFromStr(HeaderText(h) + t)
              == Done(HeaderOf([("version", VersionText(h)), ("encoding", EncodingText(EncodingOf(h)))]),
                      TrimStartMatches(TrimEnd(t), "?>"))
  {
    var v := VersionText(h);
    var e := EncodingText(EncodingOf(h));
    var t' := TrimEnd(t);
    var r := "?>" + t';
    var body := " " + (PairText("version", v) + (" " + (PairText("encoding", e) + r)));
    HeaderTrim(h, t);
    HeaderTextSplit(h, t');
    HeaderProps(v, e, r);
    HeaderClose(t');
    StartsWithHead(body, "<?xml");
    HeaderFromStrOf(HeaderText(h) + t, body, [("version", v), ("encoding", e)], r);
  }

  /**
   * Reading a written declaration gives back its version and encoding (absent
   * ones as their defaults), so writing it again gives the same text. What is
   * left is the following text with trailing whitespace and leading `?>` copies
   * removed.
   */
  lemma HeaderRoundTrip(h: Header, t: string)
    requires QuoteFree(VersionText(h)) && QuoteFree(EncodingText(EncodingOf(h)))
    requires WellFormedEncoding(EncodingOf(h))
    ensures var h' := Header(Some(VersionText(h)), Some(EncodingOf(h)));
            HeaderFromStr(HeaderText(h) + t) == Done(h', TrimStartMatches(TrimEnd(t), "?>"))
            && HeaderText(h') == HeaderText(h)
  {
    HeaderParse(h, t);
    RereadHeader(h);
  }

  /** The header read from a written declaration, and that it writes the same text. */
  lemma RereadHeader(h: Header)
    requires WellFormedEncoding(EncodingOf(h))
    ensures var h' := Header(Some(VersionText(h)), Some(EncodingOf(h)));
            && HeaderOf([("version", VersionText(h)), ("encoding", EncodingText(EncodingOf(h)))]) == h'
            && HeaderText(h') == HeaderText(h)
  {
    var h' := Header(Some(VersionText(h)), Some(EncodingOf(h)));
    HeaderOfWritten(h);
    HeaderTextSame(h', h);
  }

  /** Every leading `<?xml` is dropped, and a declaration without attributes has neither. */
  lemma RepeatedOpening()
    ensures HeaderFromStr("<?xml<?xml?>") == Done(Header(None, None), "")
  {
    var s := "<?xml<?xml?>";
    RepeatedOpeningSteps();
    HeaderFromStrOf(s, "<?xml" + "?>", [], "?>");
  }

  lemma RepeatedOpeningSteps()
    ensures StrTrim("<?xml<?xml?>") == "<?xml" + ("<?xml" + "?>")
    ensures ParseProperties(TrimStartMatches("<?xml" + "?>", "<?xml")) == Done([], "?>")
    ensures StartsWith(StrTrim("?>"), "?>") && TrimStartMatches(StrTrim("?>"), "?>") == ""
  {
    assert "<?xml<?xml?>" == "<?xml" + ("<?xml" + "?>");
    StrTrimNoop("<?xml<?xml?>");
    TrimStartMatchesStep("<?xml", "?>");
    StartsWithHead("?>", "<?xml");
    NoPropertiesBeforeClose();
    StrTrimNoop("?>");
    TrimStartMatchesStep("?>", "");
    assert "?>" + "" == "?>";
  }

  /** An opening with no closing `?>` is refused. */
  lemma UnclosedRefused()
    ensures HeaderFromStr("<?xml").NoMatch?
  {
    StrTrimNoop("<?xml");
    TrimStartMatchesStep("<?xml", "");
    assert "<?xml" + "" == "<?xml";
    assert ParseProperties("").rest == "";
  }

  lemma NoPropertiesBeforeClose()
    ensures ParseProperties("?>") == Done([], "?>")
  {
    assert Trim(ParseProperty, "?>").NoMatch?;
  }

  /** The attributes of a written declaration make up its version and encoding. */
  lemma HeaderOfWritten(h: Header)
    requires WellFormedEncoding(EncodingOf(h))
    ensures HeaderOf([("version", VersionText(h)), ("encoding", EncodingText(EncodingOf(h)))])
              == Header(Some(VersionText(h)), Some(EncodingOf(h)))
  {
    HeaderOfTwo(VersionText(h), EncodingText(EncodingOf(h)));
    EncodingRoundTrip(EncodingOf(h));
  }

  lemma HeaderOfTwo(v: string, e: string)
    ensures HeaderOf([("version", v), ("encoding", e)]) == Header(Some(v), Some(EncodingFromStr(e)))
  {
    HeaderPairsLast(v, e);
  }

  lemma HeaderTextSame(a: Header, b: Header)
    requires VersionText(a) == VersionText(b) && EncodingOf(a) == EncodingOf(b)
    ensures HeaderText(a) == HeaderText(b)
  {
  }
}
