/**
 * `EnCoding` (`src/encode.rs`): the `encoding` of the XML declaration. Twelve
 * names are known; any other text is kept as `Unknown`.
 */
module Encode {

  datatype Encoding =
    | Utf8 | Utf16 | Utf32 | Ascii | Iso8859 | Iso2022
    | EucJp | Sjis | Gb2312 | Big5 | Koi8R | Koi8U
    | Unknown(name: string)

  /** `Default` */
  const DefaultEncoding: Encoding := Utf8

  /** The twelve names `from_str` recognises. */
  const KnownNames: seq<string> := [
    "UTF-8", "UTF-16", "UTF-32", "ASCII", "ISO-8859", "ISO-2022",
    "EUC-JP", "SJIS", "GB2312", "BIG5", "KOI8-R", "KOI8-U"
  ]

  predicate IsKnownName(s: string) {
    s in KnownNames
  }

  /** `FromStr`: exact, case-sensitive names; it never fails. */
  function EncodingFromStr(s: string): (e: Encoding)
    ensures e.Unknown? <==> !IsKnownName(s)
    ensures e.Unknown? ==> e.name == s
  {
    match s
    case "UTF-8" => Utf8
    case "UTF-16" => Utf16
    case "UTF-32" => Utf32
    case "ASCII" => Ascii
    case "ISO-8859" => Iso8859
    case "ISO-2022" => Iso2022
    case "EUC-JP" => EucJp
    case "SJIS" => Sjis
    case "GB2312" => Gb2312
    case "BIG5" => Big5
    case "KOI8-R" => Koi8R
    case "KOI8-U" => Koi8U
    case _ => Unknown(s)
  }

  /** `Display` */
  function EncodingText(e: Encoding): (r: string)
    ensures e.Unknown? ==> r == e.name
    ensures !e.Unknown? ==> IsKnownName(r)
  {
    match e
    case Utf8 => "UTF-8"
    case Utf16 => "UTF-16"
    case Utf32 => "UTF-32"
    case Ascii => "ASCII"
    case Iso8859 => "ISO-8859"
    case Iso2022 => "ISO-2022"
    case EucJp => "EUC-JP"
    case Sjis => "SJIS"
    case Gb2312 => "GB2312"
    case Big5 => "BIG5"
    case Koi8R => "KOI8-R"
    case Koi8U => "KOI8-U"
    case Unknown(s) => s
  }

  /** An encoding `from_str` can produce: `Unknown` never holds a known name. */
  predicate WellFormedEncoding(e: Encoding) {
    e.Unknown? ==> !IsKnownName(e.name)
  }

  /** Any text survives a read and a write unchanged. */
  lemma EncodingTextRoundTrip(s: string)
    ensures WellFormedEncoding(EncodingFromStr(s))
    ensures EncodingText(EncodingFromStr(s)) == s
  {
    match EncodingFromStr(s)
    case Utf8 => assert s == "UTF-8";
    case Utf16 => assert s == "UTF-16";
    case Utf32 => assert s == "UTF-32";
    case Ascii => assert s == "ASCII";
    case Iso8859 => assert s == "ISO-8859";
    case Iso2022 => assert s == "ISO-2022";
    case EucJp => assert s == "EUC-JP";
    case Sjis => assert s == "SJIS";
    case Gb2312 => assert s == "GB2312";
    case Big5 => assert s == "BIG5";
    case Koi8R => assert s == "KOI8-R";
    case Koi8U => assert s == "KOI8-U";
    case Unknown(_) =>
  }

  /** Every encoding `from_str` can produce reads back from its text. */
  lemma EncodingRoundTrip(e: Encoding)
    requires WellFormedEncoding(e)
    ensures EncodingFromStr(EncodingText(e)) == e
  {
  }

  /** `Unknown` holding a known name prints like that name and reads back as it. */
  lemma UnknownKnownName(s: string)
    requires IsKnownName(s)
    ensures EncodingText(Unknown(s)) == s
    ensures EncodingFromStr(EncodingText(Unknown(s))) != Unknown(s)
  {
  }
}
