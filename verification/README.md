# svg_icon in Dafny

A model of `svg_icon`, a small Rust crate that reads and writes a subset of SVG:
an optional `<?xml …?>` declaration, one `<svg …>` element with its own
attributes, and a flat list of self-closing `<path>`, `<circle>`, `<rect>`,
`<line>` and `<ellipse>` children. Every reader is a pure function from a string
to a value and the unconsumed rest; every writer is a total function to a
string. The proofs are about reading back what the writers write, and about what
each reader accepts and rejects.

The model has four layers, one Dafny module per source file:

- **Lexical and attribute layer.** `Text` holds Rust's `trim`,
  `split_whitespace` and `trim_start_matches`, and nom's `multispace0`. `Parser`
  holds the nom combinators of `src/parser.rs`: keys, quoted values,
  `key="value"` lists, `point`, `bool_flag` and `trim`. `Attributes` holds the
  "last occurrence wins" rule that `HashMap::insert` and `Option::replace`
  apply to repeated keys. `Decimal` and `Float` model `f32` (see below).
- **Typed attribute values.** `Value` (`Auto<T>`), `Encode` (`EnCoding`),
  `LineCapValue`, `LineJoinValue`, `OpacityValue`, `DashOffsetValue`,
  `MiterLimitValue` and `DashArrayValue`.
- **Elements and document.** `Common` models `CommonKVs`: it splits an attribute
  list into eleven known stroke/fill fields and an "others" map. The element
  readers and writers are `PathElement`, `CircleElement`, `EllipseElement`,
  `LineElement` and `RectElement`; `ShapeAttributes` holds what they share.
  `Children` is the `Child` dispatcher and `many0` over it. `Header` is the XML
  declaration (XML 1.0 sections 2.8 and 4.3.3), and `SvgDocument` is
  `Svg::from_str` and `Display for Svg`.
- **Path commands.** These are the command values of SVG 1.1 section 8.3.
  `PathArgs` holds the shared "letter, space, arguments" shape. Then come
  `MoveToCommand`, `LineToCommand`, `CubicBezierCommand`,
  `QuadraticBezierCommand`, `EllipticalArcCommand`, `ClosePathCommand` and
  `PathCommand` (the `Command` union).

**Numbers.** An `f32` is a canonical decimal `Num(mant, scale)`, whose value is
`mant / 10^scale` with no trailing fractional zero. `NumText` is Rust's `Display`
for such a value: integral values print without `.0`, so `10.0` prints as `10`.
`LexFloat` is the number token shared by nom's `float` and `f32::from_str`: a
sign, digits with an optional fraction, and an optional exponent.

**Outcomes.** A Rust `Result` whose error the crate handles is `Err(msg)`.
Every `.unwrap()` that can fail is an explicit `Panic` (in `Result`) or `Abort`
(in a nom-style `Parsed`). A nom parser that does not match is `NoMatch`; the
combinators that try alternatives recover from it.

**Where the code and its design description differ, the model follows the code:**

- Only `M`, `V` and `Z` have readers; `Command::from_str` is `todo!()`. A path's
  `d` stays a raw string, so there is no command-sequence parser.
- `Auto` equality is symmetric (`Value.AutoEqSymmetric`).
- The arc writes its radii space-separated (`rx ry`), not as a point.
- `CommonKVs` writes only the fields that are present. No defaults are written;
  `stroke-linecap="butt"` never appears unless it was set.
- `Z` does not skip leading whitespace. `Z(true)` is written `Z`, so it reads
  back as `Z(false)` (`ClosePathCommand.ZRelativeLost`).
- Malformed numbers and out-of-range keywords abort the process through
  `unwrap`, rather than returning a structured error. The model shows them as
  `Panic`/`Abort`.

## Model

| member | source | states |
|---|---|---|
| Parser.ParseNormal | src/parser.rs:7-12 | succeeds exactly when the text starts with an alphanumeric; the key is valid (an alphanumeric, then alphanumerics or the separator); key plus rest is the input; the rest cannot continue the key; never aborts |
| Parser.ParseNormalOf | src/parser.rs:26-32 | a valid key followed by a character that cannot continue it is read as exactly that key |
| Parser.Trim | src/parser.rs:19-24 | `trim(p)` succeeds or aborts exactly when `p` does after leading whitespace, with `p`'s value; the rest is a suffix of `p`'s rest with no leading whitespace |
| Parser.TrimLeading | src/parser.rs:19-24 | whitespace in front of the input does not change what `trim(p)` reads |
| Parser.TrimDone | src/parser.rs:19-24 | on input without leading whitespace, `trim(p)` is `p` followed by dropping the whitespace after it |
| Parser.ParseString | src/parser.rs:45-47 | succeeds exactly when the text starts with `"` and has a second `"`; the value is the quote-free text between them; there are no escapes |
| Parser.ParseStringOf | src/parser.rs:45-47 | `"v"` followed by anything reads back as `v` with that rest, for every quote-free `v`, including the empty one |
| Parser.ParseProperty | src/parser.rs:35-39 | a success is a valid key, `=` right after it and a quoted value, and the input is exactly `k="v"` plus the rest; input that does not start with an alphanumeric does not match |
| Parser.ParsePropertyOf | src/parser.rs:35-39 | `k="v"` reads back as `(k, v)` |
| Parser.ParseProperties | src/parser.rs:41-43 | never fails; every pair is valid; the rest is a suffix of the input at which no trimmed pair matches |
| Parser.ParsePropertiesRoundTrip | src/parser.rs:35-47 | written pairs separated by spaces read back as the same list in the same order; after at least one pair, the whitespace before a non-key tail is consumed |
| Parser.Point | src/parser.rs:49-51 | reads two canonical numbers; the rest is a suffix of the input with no leading whitespace |
| Parser.PointRoundTrip | src/parser.rs:49-51 | `x`, then one `,` or a run of spaces and tabs, then `y` reads back as `(x, y)` |
| Parser.BoolFlag | src/parser.rs:53-55 | succeeds exactly when the first non-whitespace character is `0` or `1`; the value is true exactly for `1`; exactly that character and the whitespace around it are consumed |
| Parser.BoolFlagRoundTrip | src/parser.rs:53-55 | a written flag reads back as itself |
| Float.LexFloat | src/parser.rs:50 | the number token never aborts; a success consumes at least one character and is canonical |
| Float.LexFloatStart | src/parser.rs:50 | text that does not start with a digit, a sign or `.` is not a number |
| Float.LexFloatRoundTrip | src/parser.rs:50 | a written number followed by text that cannot extend it lexes back as the same number |
| Float.ParseF32 | src/children/common.rs:55 | `str::parse::<f32>` succeeds exactly when the whole text is one number token, and gives that token's value |
| Float.ParseF32RoundTrip | src/children/circle.rs:41-43 | a written number parses back as itself |
| Float.ParseU32 | src/lib.rs:104-107 | `u32::from_str` succeeds exactly when the text after at most one leading `+` is a non-empty digit string whose value is below 2^32, and gives that value; larger values are errors, never wrapped or saturated |
| Float.ParseU32Overflow | src/lib.rs:104-107 | the digits of any value of 2^32 or more are refused |
| Float.ParseU32RoundTrip | src/lib.rs:104-107 | a written `u32` parses back as itself |
| Decimal.NumTextWhole | src/children/path/line_to.rs:92-99 | an integral value is written as its digits, with no `.0` |
| Attributes.LastValueSpec | src/children/common.rs:55-88 | the last value of a key is absent exactly when the key does not occur; otherwise it is the value of an occurrence that no later pair overrides |
| Attributes.ToMap | src/lib.rs:80 | `HashMap::from_iter` has exactly the keys of the list, each holding its last value |
| Attributes.LastValueOfUnique | src/lib.rs:80 | a key that occurs once has the value of that occurrence |
| Value.AutoFromStr | src/value.rs:41-55 | trims its input; `auto` gives `Auto(None)`; other text succeeds exactly when `T` parses the trimmed text, with that value; a `T` failure is an `Err` carrying the trimmed text, never `Auto(None)` |
| Value.GetFromMap | src/value.rs:16-22 | an absent key gives `Auto(None)`; a present key gives `from_str` of its value, and a failed parse aborts |
| Value.AutoDefault | src/value.rs:35-39 | the default writes `auto` |
| Value.AutoEqSymmetric | src/value.rs:25-33 | `Auto` equality is symmetric |
| Value.AutoEqMixed | src/value.rs:25-33 | `Auto(None)` equals `Auto(Some(v))`, in either order, exactly when `v` writes as `auto` |
| Value.AutoRoundTrip | src/value.rs:41-64 | writing then reading gives a value equal to the original under `Auto` equality, whenever `T`'s own text round-trips |
| Value.NumAutoEq | src/value.rs:25-33 | for numbers, `Auto` equality is structural equality, since no number writes as `auto` |
| Value.NumAutoRoundTrip | src/value.rs:41-64 | a written `Auto<f32>` reads back as exactly itself |
| Encode.EncodingFromStr | src/encode.rs:26-46 | never fails; a name is unknown exactly when it is not one of the twelve known names, and an unknown one keeps the text verbatim |
| Encode.EncodingText | src/encode.rs:48-65 | an unknown encoding writes its text; a known one writes one of the twelve names |
| Encode.EncodingTextRoundTrip | src/encode.rs:29-65 | reading any text and writing it back gives the same text |
| Encode.EncodingRoundTrip | src/encode.rs:29-65 | writing then reading gives the same encoding, for every known variant and every unknown one whose text is not a known name |
| Encode.UnknownKnownName | src/encode.rs:30-63 | an unknown encoding named like a known one does not read back as itself |
| Header.HeaderOf | src/header.rs:25-36 | `version` is the last `version` value, verbatim; `encoding` is `EnCoding::from_str` of the last `encoding` value; other keys are ignored |
| Header.HeaderFromStr | src/header.rs:14-49 | never aborts; input that, once trimmed, does not start with `<?xml` does not match; input whose trimmed text after the attributes does not start with `?>` does not match; the rest never starts with `?>` |
| Header.HeaderFromStrOf | src/header.rs:14-49 | on trimmed input `<?xml` + body, every further leading `<?xml` is dropped before the attributes are read; if the trimmed rest then starts with `?>`, the result is the header of those attributes, and the rest is what follows every leading `?>` |
| Header.UnclosedRefused | src/header.rs:38-43 | `<?xml` with no closing `?>` does not match |
| Header.RepeatedOpening | src/header.rs:22 | `<?xml<?xml?>` reads as a header with neither attribute, since every leading `<?xml` is dropped |
| Header.HeaderRoundTrip | src/header.rs:14-59 | a written declaration, with `1.0` and `UTF-8` substituted for absent fields, reads back as the header of the substituted values, which writes the same text |
| LineCapValue.LineCapAccepts | src/children/common/line_cap.rs:19-36 | accepts exactly `butt`, `round` and `square`, case-exact, and a success writes back as the input |
| LineCapValue.LineCapFromStr | src/children/common/line_cap.rs:19-26 | never aborts; a rejection is an `Err` with an empty message |
| LineCapValue.LineCapRoundTrip | src/children/common/line_cap.rs:19-36 | each of the three caps reads back from its text |
| LineJoinValue.LineJoinAccepts | src/children/common/line_join.rs:21-42 | accepts exactly `arcs`, `miter`, `round`, `bevel` and `miter-clip`, and a success writes back as the input |
| LineJoinValue.LineJoinFromStr | src/children/common/line_join.rs:21-29 | never aborts; a rejection is an `Err` with an empty message |
| LineJoinValue.LineJoinRoundTrip | src/children/common/line_join.rs:21-42 | each of the five joins reads back from its text |
| OpacityValue.OpacityFromStr | src/children/common/opacity.rs:13-20 | trims and reads a number; non-numeric text aborts; a success lies in [0, 1] inclusive; a number outside is an `Err` naming it |
| OpacityValue.OpacityRoundTrip | src/children/common/opacity.rs:13-27 | a written opacity in range reads back as itself, and one out of range reads back as the range error |
| DashOffsetValue.DashOffsetFromStr | src/children/common/dash_offset.rs:13-17 | trims and stores any number, negative ones included; non-numeric text aborts; never an `Err` |
| DashOffsetValue.DashOffsetRoundTrip | src/children/common/dash_offset.rs:10-24 | a written offset reads back as itself |
| MiterLimitValue.MiterLimitFromStr | src/children/common/miter_limit.rs:13-17 | trims and stores any number, with no range check; non-numeric text aborts; never an `Err` |
| MiterLimitValue.MiterLimitRoundTrip | src/children/common/miter_limit.rs:10-24 | a written limit reads back as itself |
| DashArrayValue.ParseAll | src/children/common/dash_array.rs:12-15 | succeeds exactly when every token is a number; the list has one value per token, in token order |
| DashArrayValue.DashArrayFromStr | src/children/common/dash_array.rs:10-17 | splits the trimmed text on whitespace runs, so commas do not separate; never an `Err`; a non-numeric token aborts; one value per token, in order; blank text gives the empty list |
| DashArrayValue.DashArrayRoundTrip | src/children/common/dash_array.rs:6-33 | the values joined by single spaces read back as the same list, the empty list included |
| Common.OthersSpec | src/children/common.rs:39-90 | `others` is absent exactly when every key is a known one; otherwise it holds exactly the unknown keys, each with its last value |
| Common.CommonFoldMatches | src/children/common.rs:52-91 | the left-to-right fold with `replace` and `insert` equals the reference definition: each known field is its key's last value, parsed, and a parse failure anywhere aborts |
| Common.UpdateFields | src/children/common.rs:52-91 | folding one more pair keeps the accumulated fields equal to the reference fields of the longer list |
| Common.UpdateOthers | src/children/common.rs:87-89 | one more unknown pair is inserted into `others`, creating the map if needed; a known pair leaves `others` unchanged |
| Common.CommonFromStr | src/children/common.rs:37-112 | never fails to match; aborts exactly when folding the pairs of the trimmed input panics, because a known field's value does not parse; the rest is a suffix of the trimmed input at which no further pair starts |
| Common.EmptyCommonText | src/children/common.rs:115-152 | a value with every field absent writes nothing |
| Common.CommonPairsLast | src/children/common.rs:115-152 | in the written pairs, each known key's last value is its field's text, and the key is missing when the field is absent |
| Common.CommonFoldRoundTrip | src/children/common.rs:37-152 | the written pairs fold back to the same fields, with no others |
| Common.CommonRoundTrip | src/children/common.rs:37-152 | the written attributes read back as the same value with no others, leaving the tail that follows |
| ShapeAttributes.NumAttr | src/children/circle.rs:41-43 | an absent key gives `None`; a present one gives its parsed number, and a non-numeric value aborts |
| ShapeAttributes.OthersAfterOwn | src/children/common.rs:87-89 | an element's own attributes, followed by common ones, make up exactly its `others` map |
| ShapeAttributes.ShapeReadBack | src/children/common.rs:37-112 | an element's own attributes followed by written common attributes read back as those common fields, with the own attributes as `others` |
| ShapeAttributes.NumFieldIsLast | src/children/circle.rs:36-45 | an element's own numeric field is the last value of its key in the attribute list, parsed |
| ShapeAttributes.AutoFieldIsLast | src/children/ellipse.rs:39-40 | an element's own `auto` field is the last value of its key, read as `Auto` |
| PathElement.PathFromStrSpec | src/children/path.rs:14-23 | aborts exactly when the common attributes do; `d` is the last `d` value of the attribute list, verbatim; the rest is what the common reader left |
| PathElement.PathDPresent | src/children/path.rs:17-21 | a present `d` always yields `Some`, since `d` is never a common key |
| PathElement.PathReadBack | src/children/path.rs:13-34 | `d="D" COMMON` reads back as the same common fields and `Some(D)`; an absent `d` was written as `""` |
| CircleElement.CircleFromStrSpec | src/children/circle.rs:22-47 | aborts when the common attributes or one of `cx`, `cy`, `r` does not parse; otherwise the three are their keys' last values, absent as `None` |
| CircleElement.CircleReadBack | src/children/circle.rs:22-60 | the written circle reads back with absent numbers as 0 and without its common attributes, which the writer omits |
| EllipseElement.EllipseFromStrSpec | src/children/ellipse.rs:21-54 | `cx` and `cy` are optional numbers; `rx` and `ry` go through `Auto`, so absent or `auto` gives `Auto(None)`; a bad value aborts |
| EllipseElement.EllipseReadBack | src/children/ellipse.rs:21-68 | the written ellipse reads back with absent centre coordinates as 0, the same radii and the same common fields |
| LineElement.LineFromStrSpec | src/children/line.rs:21-49 | `x1`, `y1`, `x2` and `y2` are their keys' last values, absent as `None`; a bad value aborts |
| LineElement.LineReadBack | src/children/line.rs:21-62 | the written line reads back with absent coordinates as 0 and the same common fields |
| RectElement.RectFromStrSpec | src/children/rect.rs:18-58 | `width`, `height`, `rx` and `ry` are their keys' last values, absent as `None`; a bad value aborts |
| RectElement.RectPositionUnread | src/children/rect.rs:40-41 | `x` and `y` are always `None`, because the common reader claims those keys first |
| RectElement.RectReadBack | src/children/rect.rs:18-74 | the written rectangle reads back with its `x` and `y` moved into the common fields (a later common `x`/`y` wins), its position `None`, and absent sizes as 0 |
| Children.ChildFromStr | src/children/mod.rs:90-103 | never aborts; accepts exactly `circle`, `ellipse`, `line`, `path` and `rect`; any other name is `Err("Unsupported children: " + name)` |
| Children.FirstPrefix | src/children/mod.rs:44-50 | the first name the text starts with, and none exactly when it starts with none of them |
| Children.Which | src/children/mod.rs:41-54 | never aborts; a success consumes at least `<` and a name |
| Children.WhichOf | src/children/mod.rs:41-54 | `<` and a supported name read as `Child::from_str` of that name, leaving the text after the name |
| Children.ReadElement | src/children/mod.rs:59-80 | never `NoMatch`; a success is an element of the kind `which` chose |
| Children.ChildrenParser | src/children/mod.rs:55-87 | never fails to match; its rest is text where no complete child starts |
| Children.ChildReadBack | src/children/mod.rs:56-114 | a written child, closed by `/>`, reads back as its reread form and consumes the whitespace after it |
| Children.ChildrenReadBack | src/children/mod.rs:55-114 | written children read back one by one, in order, and the parser stops at the tail that follows them |
| SvgDocument.ViewBoxFromStr | src/lib.rs:102-109 | succeeds exactly when there are at least four whitespace-separated tokens and the first four are `u32`s, and gives those four; otherwise it aborts |
| SvgDocument.ViewBoxRoundTrip | src/lib.rs:102-109 | a written view box reads back as itself |
| SvgDocument.TakeUntilGt | src/lib.rs:70 | `take_until1(">")`: the non-empty text before the first `>`; no match when there is none or it comes first |
| SvgDocument.TagAttrs | src/lib.rs:85-110 | aborts exactly when `x`, `y`, `height`, `width` or `viewBox` is malformed; an absent `fill` is `none` and an absent `xmlns` is `http://www.w3.org/2000/svg`; absent `x`, `y`, `viewBox` are `None`; absent `height` and `width` are `auto` |
| SvgDocument.PropsAttrs | src/lib.rs:75-83 | attribute text that `parse_properties` does not fully consume is `Err("Invalid svg tag props!")`; otherwise the fields come from the map of the pairs |
| SvgDocument.SvgFromStr | src/lib.rs:58-125 | the header is present exactly when it parses, and is then the parsed header; every `Err` is the props error or the tag error naming the non-empty trailing text |
| SvgDocument.SvgContentOf | src/lib.rs:112-123 | after the children and `</svg>`, any remaining text gives `Err("Invalid svg tag: …")` |
| SvgDocument.BareTagAborts | src/lib.rs:68-83 | `<svg>` with no attribute text aborts, because `take_until1` needs at least one character |
| SvgDocument.UnreadPropsRejected | src/lib.rs:75-79 | an `<svg …>` whose attribute text is not all pairs is rejected with `Invalid svg tag props!` |
| SvgDocument.SvgReadBack | src/lib.rs:58-162 | the written document followed by an empty tail reads back as its reread form: the header with defaults filled in, the same tag attributes and the children reread in order; a non-empty tail gives the `Invalid svg tag` error naming it |
| SvgDocument.SvgRereadIdempotent | src/lib.rs:58-162 | reading back is stable: a document already read back reads back as itself |
| PathArgs.ReadLetterArgsRoundTrip | src/children/path/command.rs:38-49 | a command line, meaning a letter in the case `relative` gives and then the arguments, reads back as the same flag and arguments |
| MoveToCommand.MFromStr | src/children/path/move_to.rs:21-35 | `relative` is true exactly when the letter after leading whitespace is `m`; any other first letter does not match; the point is canonical; the rest has no leading whitespace |
| MoveToCommand.MRoundTrip | src/children/path/move_to.rs:21-47 | `M x,y` or `m x,y` reads back as the same move, consuming the whitespace after it |
| MoveToExamples.MoveThenLine | src/children/path/move_to.rs:56-66 | `M 10,20 l 80, 80` reads as an absolute move to (10, 20), leaving `l 80, 80` |
| MoveToExamples.RelativeMove | src/children/path/move_to.rs:67-77 | `m 10,20` is a relative move to (10, 20), read to the end |
| MoveToExamples.SpaceSeparatedMove | src/children/path/move_to.rs:78 | `M 10 20` reads like `M 10,20` |
| LineToCommand.VFromStr | src/children/path/line_to.rs:73-85 | `relative` is true exactly when the letter is `v`; other letters do not match; the number is canonical |
| LineToCommand.VRoundTrip | src/children/path/line_to.rs:67-85 | `V y` or `v y` reads back as the same command |
| LineToCommand.LReadBack | src/children/path/line_to.rs:35-45 | `L x,y` keeps its case and both coordinates |
| LineToCommand.HReadBack | src/children/path/line_to.rs:54-58 | `H x` keeps its case and its coordinate |
| LineToExamples.LineExamples | src/children/path/line_to.rs:92-99 | `L 10,20` and `l 10,20` |
| LineToExamples.HorizontalExamples | src/children/path/line_to.rs:100-107 | `H 10` and `h 10` |
| LineToExamples.VerticalExamples | src/children/path/line_to.rs:108-115 | `V 10` and `v 10` |
| CubicBezierCommand.CReadBack | src/children/path/cubic_bezier.rs:29-43 | `C x1,y1 x2,y2 x,y` keeps its case and all six coordinates, in order |
| CubicBezierCommand.SReadBack | src/children/path/cubic_bezier.rs:55-66 | `S x2,y2 x,y` keeps its case and all four coordinates, in order |
| QuadraticBezierCommand.QReadBack | src/children/path/quadratic_bezier.rs:27-39 | `Q x1,y1 x,y` keeps its case and all four coordinates |
| QuadraticBezierCommand.TReadBack | src/children/path/quadratic_bezier.rs:48-57 | `T x,y` keeps its case and both coordinates |
| EllipticalArcCommand.AReadBack | src/children/path/elliptical_arc.rs:22-36 | `A rx ry angle large sweep x,y` keeps its case, both radii, the angle, both flags and the end point, in that order |
| EllipticalArcCommand.AFlagsText | src/children/path/elliptical_arc.rs:31-32 | each flag is written `1` when set and `0` when not |
| ClosePathCommand.ZFromStr | src/children/path/close_path.rs:9-12 | matches exactly when the first character is `z` or `Z`, consuming only it, and is relative exactly for `z` |
| ClosePathCommand.ZRoundTrip | src/children/path/close_path.rs:9-19 | every `Z` is written `Z` and reads back as the absolute `Z` |
| ClosePathCommand.ZRelativeLost | src/children/path/close_path.rs:9-19 | the relative `Z` does not survive a write and read |
| ClosePathCommand.ZNoLeadingSpace | src/children/path/close_path.rs:10 | leading whitespace is not skipped, so ` Z` does not match |
| ClosePathCommand.ZExamples | src/children/path/close_path.rs:26-43 | `Z` reads as `Z(false)` and `z` as `Z(true)`, both to the end |
| PathCommand.CommandTextShape | src/children/path/command.rs:38-49 | a command is written as its variant's text: the family letter in the case `relative` gives, then its arguments; `ClosePath` is always `Z` |
| PathCommand.CommandReadBack | src/children/path/command.rs:21-49 | every written command reads back as itself, except that `z` becomes `Z` |

## Left out

- `Svg::from_path` is not modelled: it is file I/O and `dbg!`. Neither is the test that reads a hard-coded Windows path.
- `src/macros.rs` is not part of this model. `impl_auto_value!` is trait boilerplate, and `svg!` is `parse().unwrap()`.
- Float.LexFloat: models `f32` as an exact decimal. It leaves out IEEE rounding, the `inf`, `infinity` and `nan` tokens that nom's `float` and `f32::from_str` accept, and `-0`.
- Float.LexFloat: a dangling exponent such as `1e` is a recoverable `NoMatch`. nom's `float` treats it as a hard failure, but no caller of the crate tells the two apart.
- Float.ParseF32: same decimal abstraction as `LexFloat`. An integer literal is parsed to its exact value, with no rounding to 24 bits of mantissa.
- Decimal.NumText: writes numbers in plain decimal notation. Rust's float `Display` never uses an exponent either, but its shortest-round-trip digit choice for non-decimal binary values is not modelled.
- OpacityValue.OpacityFromStr: does not model NaN, which passes the source's range check because both comparisons are false. The model has no NaN.
- Parser.ParseNormal: after the first character, accepts only ASCII alphanumerics. The source's `char::is_alphanumeric` also accepts other Unicode letters and digits.
- Value.AutoFromStr: the `Err` message puts the trimmed text in double quotes. It does not add the escape sequences of Rust's `{:?}`.
- Attributes.ToMap: a Dafny `map` has no iteration order. The source's `HashMap` order is never observable in its output, and the last duplicate key wins in both.
- Every `unwrap` that can fail is a `Panic` or `Abort` value, not a process abort. Only its reachability is modelled, not the panic message.
- PathArgs.ReadLetterArgs: a reference reader that the crate does not have. It reads `L`, `H`, `C`, `S`, `Q`, `T` and `A` so that their writers can be proved to keep every field.
- PathCommand.ReadCommand: a reference reader, as above. `Command::from_str` is `todo!()` and is not modelled.
- The `From` impls of `Command` are the Dafny constructors of the `Command` datatype. They add nothing to prove.
- `Default` for each keyword and number value is a named constant (`DefaultLineCap`, `DefaultOpacity`, …), not a member with a contract.
- SvgDocument.SvgFromStr: the `None` branch for empty attribute text (`src/lib.rs:81-83`) cannot be reached. `take_until1` never returns empty text, so `<svg>` aborts (`SvgDocument.BareTagAborts`).
- SvgDocument.SvgReadBack: applies to documents whose attribute values are quote-free and contain no `>`. The source writes such values without escaping, so other values cannot be read back by the source either.
- Children.ChildrenParser: nom's `many0` error on a parser that consumes nothing cannot arise, because `single` always consumes. It is not modelled.
