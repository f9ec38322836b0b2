# ParagraphStyle of fb2pdf, modelled in Dafny

fb2pdf turns FictionBook documents into PDF. Each paragraph is typeset
according to a named `ParagraphStyle` from a stylesheet. A style may set any
of nine attributes: font family, emphasis (font style), font size, leading,
alignment, spacing before and after, left indent and first-line indent. It
may also name a base style. Each attribute is resolved the same way. The
style's own value is used if it is set. Otherwise the base style is looked
up in the stylesheet and asked for the attribute. When there is no base, a
fixed default applies, or an error is raised for font family and font size.
Lengths are then turned into points against the font size resolved for the
style being asked. The emphasis and the alignment are read from
case-insensitive words through two small codecs. Each codec keeps the word
it was given and writes it back unchanged.

The project has five files:

- `wrappers.dfy`: `Option` (Java's null) and `Result` (a returned value or a
  thrown `FB2toPDFException`).
- `errors.dfy`: the kinds of failure the style code raises.
- `tokens.dfy`: the `FontStyleInfo` and `AlignmentInfo` codecs.
  `equalsIgnoreCase` is modelled on Java's per-character rule.
- `dimensions.dfy`: lengths, either `Pt(points)` or `Em(factor)`, with the
  two evaluations the style code calls.
- `paragraph_style.dfy`: styles, the stylesheet, the resolvers, and the
  lemmas about them.

Every resolver is a pure function of a `Stylesheet` value and a `Style`
value. Eight of them share one generic cascade, `Cascade`. Each one is
proved equal to an independent reading along the style's *lineage*: the
list of styles reached by following base links, together with the lookup
error that cut the walk short, if any. The resolved value is the value of
the nearest style in the lineage that sets the attribute. Failing that, it
is the lookup error that ended the lineage. Failing that, it is the
attribute's default, or the "not defined" error.

Assumptions of the model (these are not behaviours of the code):

- **Acyclic stylesheet.** Every resolver requires `Acyclic(sheet)`: some
  rank over style names strictly decreases along every base link. The
  program has no cycle check. A resolver recurses until the stack overflows
  when it reaches a cycle such as A→B→A on which no style sets its
  attribute and every style has a stylesheet. `TwoCycleIsNotAcyclic` shows that such a cycle
  is excluded.
- **One stylesheet.** A style's stylesheet back-reference is modelled as the
  flag `hasStylesheet`. The stylesheet itself is the one `Stylesheet` passed
  to every resolver, so all attached styles are taken to share it.
- **Explicit lookup errors.** Looking up a missing style name or font family
  fails with `UnknownStyle` or `UnknownFontFamily`. `Stylesheet.java` is not
  part of this model.
- **Dimension contract.** `Dimension.java` is not part of this model. As its
  callers use it, `getPoints()` is defined only for absolute lengths and
  fails (`RelativeDimension`) on relative ones. `getPoints(ref)` returns
  `factor * ref` for relative lengths and ignores `ref` for absolute ones.
  `"1em"` is `Em(1.0)` and `"0pt"` is `Pt(0.0)`.
- **Alignment codes.** `AlignLeft` .. `AlignJustified` are 0..3, the values
  of the rendering library's `Element.ALIGN_*` constants.

Behaviour of the code a reader might not expect:

- Serialising a codec value returns the string it was built from, in its
  original casing (`"BOLD"` stays `"BOLD"`), not a canonical word.
- The "Font family/size for style X not defined" error names the *last*
  style of the chain. The recursion raises it in the base style, not in the
  style first asked.
- The code does not detect cycles; see `Acyclic`.
- `getFontFamily` fails without a stylesheet even when the style sets its
  own family. It checks this again at every style it delegates to.

## Model

| member | source | states |
|---|---|---|
| `Tokens.LetterMatches` | src/org/trivee/fb2pdf/ParagraphStyle.java:23-38 | The characters that `equalsIgnoreCase` matches to a lower-case ASCII letter: the letter, its capital, and U+0130/U+0131 for i, U+017F for s, U+212A for k. |
| `Tokens.ParseFontStyle` | src/org/trivee/fb2pdf/ParagraphStyle.java:19-47 | An accepted emphasis keeps the input string. A rejected one fails with `InvalidStyle` naming that string. |
| `Tokens.FontStyleVocabulary` | src/org/trivee/fb2pdf/ParagraphStyle.java:23-46 | regular, bold, italic and bolditalic, in any casing, give (F,F), (T,F), (F,T) and (T,T), each in both directions. Every other string fails. |
| `Tokens.FontStyleRoundTrip` | src/org/trivee/fb2pdf/ParagraphStyle.java:76-79 | Serialising a parsed emphasis gives back exactly the parsed string (stored at line 22). |
| `Tokens.SerializeFontStyle` | src/org/trivee/fb2pdf/ParagraphStyle.java:76-79 | For a deserialised emphasis, the word written is bold or bolditalic (up to case) exactly when the value is bold, and italic or bolditalic exactly when it is italic. |
| `Tokens.FontStyleReparse` | src/org/trivee/fb2pdf/ParagraphStyle.java:63-79 | For every accepted string, deserialising the serialised form of its value gives the same result as deserialising the string. |
| `Tokens.FontStyleExamples` | src/org/trivee/fb2pdf/ParagraphStyle.java:23-46 | "BoldItalic" is bold and italic. "ITALIC" is written back as "ITALIC". "bold " and "" are rejected. |
| `Tokens.RegularFontStyle` | src/org/trivee/fb2pdf/ParagraphStyle.java:213-214 | The default emphasis is what parsing "regular" gives: neither bold nor italic. |
| `Tokens.ParseAlignment` | src/org/trivee/fb2pdf/ParagraphStyle.java:87-101 | An accepted alignment keeps the input string and carries one of the four codes. A rejected one fails with `InvalidAlignment` naming that string. |
| `Tokens.AlignmentVocabulary` | src/org/trivee/fb2pdf/ParagraphStyle.java:91-100 | left, center, right and justified, in any casing, give the left, center, right and justified codes, each in both directions. Every other string fails. The four codes are distinct. |
| `Tokens.AlignmentCodesDistinguishWords` | src/org/trivee/fb2pdf/ParagraphStyle.java:91-98 | Two accepted alignments have the same code exactly when they spell the same word up to case. |
| `Tokens.AlignmentRoundTrip` | src/org/trivee/fb2pdf/ParagraphStyle.java:125-128 | Serialising a parsed alignment gives back exactly the parsed string (stored at line 90). |
| `Tokens.SerializeAlignment` | src/org/trivee/fb2pdf/ParagraphStyle.java:125-128 | For a deserialised alignment, the word written is left, center, right or justified (up to case) exactly when the code is the left, center, right or justified code. |
| `Tokens.AlignmentReparse` | src/org/trivee/fb2pdf/ParagraphStyle.java:112-128 | For every accepted string, deserialising the serialised form of its value gives the same result as deserialising the string. |
| `Tokens.AlignmentExamples` | src/org/trivee/fb2pdf/ParagraphStyle.java:91-100 | "Center" gives the center code. "JUSTIFIED" gives the justified code. "centre" is rejected. |
| `Dimensions.Dimension.Points` | src/org/trivee/fb2pdf/ParagraphStyle.java:249 | `getPoints()` succeeds exactly on absolute lengths and returns their points. On a relative length it fails. |
| `Dimensions.Dimension.PointsRelativeTo` | src/org/trivee/fb2pdf/ParagraphStyle.java:269 | `getPoints(ref)` is the points of an absolute length, and `factor * ref` for a relative one. |
| `ParagraphStyle.LookupFontFamily` | src/org/trivee/fb2pdf/ParagraphStyle.java:193-194 | A family name resolves to the stylesheet's family of that name. A missing name fails with `UnknownFontFamily`. |
| `ParagraphStyle.TwoCycleIsNotAcyclic` | src/org/trivee/fb2pdf/ParagraphStyle.java:209-211 | Two styles that name each other as base make the stylesheet cyclic, so the resolvers' precondition excludes them. |
| `ParagraphStyle.ResolveBase` | src/org/trivee/fb2pdf/ParagraphStyle.java:175-185 | No base name gives "no base". A base name without a stylesheet fails with `StylesheetNotSet`, and only then. Otherwise the result is the named style, or `UnknownStyle`. |
| `ParagraphStyle.LineageOf` | src/org/trivee/fb2pdf/ParagraphStyle.java:178-184 | The lineage starts at the style. Each style in it is the base of the one before. It ends exactly where `getBaseStyle` gives no base or fails, and it records that failure. |
| `ParagraphStyle.Cascade` | src/org/trivee/fb2pdf/ParagraphStyle.java:203-364 | At a style without its own value, a missing base gives that style's fallback (a default, or the "not defined" error) and a failed base lookup gives that failure. `OwnValueWins`, `BaseValueInherited` and `CascadeSettles` state the other cases and the reading along the lineage. |
| `ParagraphStyle.CascadeSettles` | src/org/trivee/fb2pdf/ParagraphStyle.java:203-364 | The shared getter pattern gives the value of the nearest style in the lineage that sets the field. Failing that, it gives the lookup error that ended the lineage. Failing that, it gives the fallback of the lineage's last style. |
| `ParagraphStyle.OwnValueWins` | src/org/trivee/fb2pdf/ParagraphStyle.java:206-207 | A style's own value is the result, whatever its base chain holds or whether the chain can be looked up. |
| `ParagraphStyle.BaseValueInherited` | src/org/trivee/fb2pdf/ParagraphStyle.java:209-211 | Without an own value, a style whose base is found resolves exactly as that base does. |
| `ParagraphStyle.ResolveFontStyle` | src/org/trivee/fb2pdf/ParagraphStyle.java:203-215 | The own emphasis wins. Otherwise the result is the nearest emphasis in the lineage. With none, it is the lineage's lookup error, or else "regular". |
| `ParagraphStyle.ResolveFontSize` | src/org/trivee/fb2pdf/ParagraphStyle.java:217-228 | The own size wins. Otherwise the result is the nearest size in the lineage. With none, it is the lookup error, or else `FontSizeNotDefined` naming the lineage's last style. |
| `ParagraphStyle.ResolveLeading` | src/org/trivee/fb2pdf/ParagraphStyle.java:252-264 | The own leading wins. Otherwise the result is the nearest leading in the lineage. With none, it is the lookup error, or else 1em. |
| `ParagraphStyle.ResolveAlignment` | src/org/trivee/fb2pdf/ParagraphStyle.java:278-290 | The own alignment's code wins. Otherwise the result is the nearest alignment's code in the lineage. With none, it is the lookup error, or else the left code. |
| `ParagraphStyle.ResolveSpacingBefore` | src/org/trivee/fb2pdf/ParagraphStyle.java:292-304 | The own value wins. Otherwise the result is the nearest value in the lineage. With none, it is the lookup error, or else 0pt. |
| `ParagraphStyle.ResolveSpacingAfter` | src/org/trivee/fb2pdf/ParagraphStyle.java:312-324 | The own value wins. Otherwise the result is the nearest value in the lineage. With none, it is the lookup error, or else 0pt. |
| `ParagraphStyle.ResolveLeftIndent` | src/org/trivee/fb2pdf/ParagraphStyle.java:332-344 | The own value wins. Otherwise the result is the nearest value in the lineage. With none, it is the lookup error, or else 0pt. |
| `ParagraphStyle.ResolveFirstLineIndent` | src/org/trivee/fb2pdf/ParagraphStyle.java:352-364 | The own value wins. Otherwise the result is the nearest value in the lineage. With none, it is the lookup error, or else 0pt. |
| `ParagraphStyle.ResolveFontFamily` | src/org/trivee/fb2pdf/ParagraphStyle.java:187-201 | Without a stylesheet it fails with `StylesheetNotSet`, even when the style names its own family. With one, an own family name is looked up in the stylesheet. |
| `ParagraphStyle.FontFamilyAlongLineage` | src/org/trivee/fb2pdf/ParagraphStyle.java:187-201 | The family is the one named by the nearest style in the lineage that names one. The style where the walk stops must have a stylesheet. Otherwise the result is the lineage's lookup error, or `FontFamilyNotDefined` naming its last style. |
| `ParagraphStyle.Variant` | src/org/trivee/fb2pdf/ParagraphStyle.java:237-247 | Neither flag selects the regular variant, bold alone the bold one, italic alone the italic one, and both the bold-italic one. |
| `ParagraphStyle.VariantOfToken` | src/org/trivee/fb2pdf/ParagraphStyle.java:237-247 | The emphasis words regular, bold, italic and bolditalic select the family's regular, bold, italic and bold-italic variants respectively. |
| `ParagraphStyle.ResolveFont` | src/org/trivee/fb2pdf/ParagraphStyle.java:230-250 | It succeeds exactly when the family, the emphasis and an absolute font size all resolve. Otherwise the error is that of the first to fail, in the order family, emphasis, font size, then `RelativeDimension` for a relative size. The font is the variant chosen by the flags, at the size in points. |
| `ParagraphStyle.ResolvedFontStyleIsParsed` | src/org/trivee/fb2pdf/ParagraphStyle.java:203-215 | When every stored emphasis was produced by the deserialiser, the resolved emphasis was too. |
| `ParagraphStyle.FontFollowsEmphasisWord` | src/org/trivee/fb2pdf/ParagraphStyle.java:233-249 | In a well-formed stylesheet, the font's variant is the one named by the emphasis word in force. |
| `ParagraphStyle.AlignmentIsACode` | src/org/trivee/fb2pdf/ParagraphStyle.java:278-290 | In a well-formed stylesheet, a resolved alignment is one of the four codes. |
| `ParagraphStyle.Evaluate` | src/org/trivee/fb2pdf/ParagraphStyle.java:266-270 | The result exists exactly when the dimension and an absolute font size resolve, and it is the dimension evaluated against that size. Otherwise the error is the dimension's, else the font size's, else `RelativeDimension` for a relative size. |
| `ParagraphStyle.AbsoluteLeading` | src/org/trivee/fb2pdf/ParagraphStyle.java:266-270 | The resolved leading evaluated against this style's own resolved font size. The error is the leading's, else the font size's, else `RelativeDimension` for a relative size. |
| `ParagraphStyle.RelativeLeading` | src/org/trivee/fb2pdf/ParagraphStyle.java:272-276 | Always 0. |
| `ParagraphStyle.SpacingBefore` | src/org/trivee/fb2pdf/ParagraphStyle.java:306-310 | The resolved spacing before, evaluated against this style's own resolved font size. The error is the spacing before's, else the font size's, else `RelativeDimension` for a relative size. |
| `ParagraphStyle.SpacingAfter` | src/org/trivee/fb2pdf/ParagraphStyle.java:326-330 | The resolved spacing after, evaluated against this style's own resolved font size. The error is the spacing after's, else the font size's, else `RelativeDimension` for a relative size. |
| `ParagraphStyle.LeftIndent` | src/org/trivee/fb2pdf/ParagraphStyle.java:346-350 | The resolved left indent, evaluated against this style's own resolved font size. The error is the left indent's, else the font size's, else `RelativeDimension` for a relative size. |
| `ParagraphStyle.FirstLineIndent` | src/org/trivee/fb2pdf/ParagraphStyle.java:366-370 | The resolved first-line indent, evaluated against this style's own resolved font size. The error is the first-line indent's, else the font size's, else `RelativeDimension` for a relative size. |
| `ParagraphStyle.DefaultLeadingIsFontSize` | src/org/trivee/fb2pdf/ParagraphStyle.java:262-269 | With no leading anywhere in an unbroken lineage and an absolute size of p points, the absolute leading is p. |
| `ParagraphStyle.InheritedIndentUsesOwnFontSize` | src/org/trivee/fb2pdf/ParagraphStyle.java:338-349 | An inherited `f`em left indent is `f` times the font size of the style asking, whatever size the base style has. |
| `ParagraphStyle.QuoteInheritsFromBody` | src/org/trivee/fb2pdf/ParagraphStyle.java:217-350 | "quote" is based on "body" (Serif, 12pt) and sets center and a 1em indent. It resolves to the center code, 12pt, a 12pt indent, a 12pt leading and Serif regular at 12pt. |
| `ParagraphStyle.OrphanHasNoFamily` | src/org/trivee/fb2pdf/ParagraphStyle.java:196-200 | A style with no base and no family fails with `FontFamilyNotDefined` naming itself. |

## Left out

- JSON plumbing: the Gson adapters `FontStyleInfoIO` and `AlignmentInfoIO` and `prepare` (lines 60-80, 109-136). Only the string-to-value parse and the value-to-string serialise they wrap are modelled.
- Dimension parsing (`new Dimension("1em")`): `Dimension.java` is not part of this model. Lengths are the abstract `Pt`/`Em` values. Reals stand for Java's `float`, so float rounding is not modelled.
- Rendering objects: building `Font`, `BaseFont`, `Chunk` and `Paragraph`, and `createChunk`/`createParagraph` (lines 378-398). These are calls into the rendering library. `ResolveFont` returns the chosen variant and the size instead of a font object.
- `Stylesheet` storage: modelled as two maps with explicit missing-name errors. What the real stylesheet does for an unknown name is not claimed.
- Cycle behaviour: the program's unbounded recursion on a cyclic base chain is not modelled. Acyclicity is a precondition of every resolver.
- Resolutions the program completes on a cyclic stylesheet: `Acyclic` is required of the whole stylesheet, so the model says nothing about a sheet that contains a cycle, even where the program finishes. That covers a cycle elsewhere in the sheet, a cycle under a style that sets the attribute, and a cycle through a style without a stylesheet.
- Several stylesheets: each Java style holds its own stylesheet reference. The model passes one stylesheet and keeps only whether a style has one.
- Trivial accessors `setStylesheet`, `getStylesheet`, `getName` and `getText`: a field write or read with no logic. The `text` field is not modelled.
- A null `name`: names are plain strings. Error messages are recorded as an error kind plus the name they mention, not as text.
- `Tokens.EqualsIgnoreCase`: exact only when its second argument is a lower-case ASCII word, which holds for all eight vocabulary words. Java's full Unicode case tables are reduced to the entries that map onto ASCII letters. Java compares UTF-16 code units and the model compares code points; no character outside the Basic Multilingual Plane can match an ASCII letter, so this changes nothing.
- Cost: each step of a resolution looks a base style up in the stylesheet again, and `getFont` and the length getters walk the base chain once per attribute they resolve. The model states results only, not how many lookups produce them.
