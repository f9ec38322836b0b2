/** ParagraphStyle.java: a named bundle of optional typesetting overrides
    with an optional base style, and the resolvers that look an attribute up
    along the chain of base styles. */
module ParagraphStyle {
  import opened Wrappers
  import opened Errors
  import opened Tokens
  import opened Dimensions

  // ---------------------------------------------------------------------
  // Data
  // ---------------------------------------------------------------------

  /** A font file of the rendering library, by name. */
  datatype FontFace = FontFace(name: string)

  /** The four variants a font family offers. */
  datatype FontFamily = FontFamily(regular: FontFace, bold: FontFace, italic: FontFace, boldItalic: FontFace)

  /** What getFont builds: a variant and a size in points. */
  datatype Font = Font(face: FontFace, size: real)

  /** The fields of a ParagraphStyle. `None` is Java's null: "not set here".
      `hasStylesheet` says whether setStylesheet has attached a stylesheet;
      the stylesheet itself is the `Stylesheet` passed to every resolver. */
  datatype Style = Style(
    name: string,
    baseStyle: Option<string>,
    hasStylesheet: bool,
    fontFamily: Option<string>,
    fontStyle: Option<FontStyleInfo>,
    fontSize: Option<Dimension>,
    leading: Option<Dimension>,
    alignment: Option<AlignmentInfo>,
    spacingBefore: Option<Dimension>,
    spacingAfter: Option<Dimension>,
    leftIndent: Option<Dimension>,
    firstLineIndent: Option<Dimension>)

  /** The stylesheet, as far as the style code uses it: styles and font
      families by name. */
  datatype Stylesheet = Stylesheet(styles: map<string, Style>, families: map<string, FontFamily>)

  /** Stylesheet.getFontFamily, with a missing name made an explicit error. */
  function LookupFontFamily(sheet: Stylesheet, family: string): (r: Result<FontFamily, Error>)
    ensures r.Ok? <==> family in sheet.families
    ensures r.Ok? ==> r.value == sheet.families[family]
    ensures r.Err? ==> r.error == UnknownFontFamily(family)
  {
    if family in sheet.families then Ok(sheet.families[family]) else Err(UnknownFontFamily(family))
  }

  // ---------------------------------------------------------------------
  // Acyclicity: an assumption of the model, not a behaviour of the code
  // ---------------------------------------------------------------------

  /** The registered style a style's base name leads to, if there is one. */
  function Link(sheet: Stylesheet, s: Style): Option<string> {
    if s.baseStyle.Some? && s.baseStyle.value in sheet.styles then s.baseStyle else None
  }

  /** `rank` strictly decreases along every base link between registered
      styles. */
  ghost predicate Ranked(sheet: Stylesheet, rank: map<string, nat>) {
    forall n :: n in sheet.styles ==>
      && n in rank
      && (Link(sheet, sheet.styles[n]).Some? ==>
            Link(sheet, sheet.styles[n]).value in rank &&
            rank[Link(sheet, sheet.styles[n]).value] < rank[n])
  }

  /** No chain of base styles comes back to where it started. The program
      does not check this: a resolver recurses until the stack overflows
      when it reaches a cycle on which no style sets its attribute. Every
      resolver here requires it of the whole stylesheet. */
  ghost predicate Acyclic(sheet: Stylesheet) {
    exists rank :: Ranked(sheet, rank)
  }

  ghost function SomeRank(sheet: Stylesheet): (rank: map<string, nat>)
    requires Acyclic(sheet)
    ensures Ranked(sheet, rank)
  {
    var rank :| Ranked(sheet, rank); rank
  }

  /** The termination measure of the resolvers. */
  ghost function Height(sheet: Stylesheet, s: Style): nat
    requires Acyclic(sheet)
  {
    match Link(sheet, s)
    case None => 0
    case Some(b) => SomeRank(sheet)[b] + 1
  }

  /** Two styles that name each other as base admit no rank. */
  lemma TwoCycleIsNotAcyclic(sheet: Stylesheet, a: string, b: string)
    requires a in sheet.styles && b in sheet.styles
    requires sheet.styles[a].baseStyle == Some(b) && sheet.styles[b].baseStyle == Some(a)
    ensures !Acyclic(sheet)
  {
  }

  // ---------------------------------------------------------------------
  // getBaseStyle and the chain of base styles
  // ---------------------------------------------------------------------

  /** getBaseStyle: no base name means no base; a base name needs an
      attached stylesheet, which must hold a style of that name. */
  function ResolveBase(sheet: Stylesheet, s: Style): (r: Result<Option<Style>, Error>)
    ensures r == Ok(None) <==> s.baseStyle.None?
    ensures r == Err(StylesheetNotSet) <==> s.baseStyle.Some? && !s.hasStylesheet
    ensures r.Ok? && r.value.Some? <==> s.baseStyle.Some? && s.hasStylesheet && s.baseStyle.value in sheet.styles
    ensures r.Ok? && r.value.Some? ==> r.value.value == sheet.styles[s.baseStyle.value]
    ensures r.Err? && r.error != StylesheetNotSet ==> r.error == UnknownStyle(s.baseStyle.value)
  {
    if s.baseStyle.None? then Ok(None)
    else if !s.hasStylesheet then Err(StylesheetNotSet)
    else if s.baseStyle.value in sheet.styles then Ok(Some(sheet.styles[s.baseStyle.value]))
    else Err(UnknownStyle(s.baseStyle.value))
  }

  /** A base style found by ResolveBase is lower in the rank. */
  lemma BaseIsLower(sheet: Stylesheet, s: Style, b: Style)
    requires Acyclic(sheet)
    requires ResolveBase(sheet, s) == Ok(Some(b))
    ensures Height(sheet, b) < Height(sheet, s)
  {
    var rank := SomeRank(sheet);
    var n := s.baseStyle.value;
    assert Link(sheet, s) == Some(n);
    assert sheet.styles[n] == b;
  }

  /** The styles visited from `s` by following base links, and the lookup
      error that cut the walk short, if one did. */
  datatype Lineage = Lineage(styles: seq<Style>, broken: Option<Error>)

  /** The style at `i + 1` is the base of the style at `i`. */
  predicate LinkedAt(sheet: Stylesheet, styles: seq<Style>, i: nat)
    requires i + 1 < |styles|
  {
    ResolveBase(sheet, styles[i]) == Ok(Some(styles[i + 1]))
  }

  /** The lineage of a style. Its contract determines it: it starts at `s`,
      each style is the base of the one before, and it stops exactly where
      getBaseStyle yields no base (broken is None) or fails (broken holds
      the failure). */
  function LineageOf(sheet: Stylesheet, s: Style): (l: Lineage)
    requires Acyclic(sheet)
    ensures |l.styles| > 0 && l.styles[0] == s
    ensures forall i :: 0 <= i < |l.styles| - 1 ==> LinkedAt(sheet, l.styles, i)
    ensures ResolveBase(sheet, l.styles[|l.styles| - 1]) == if l.broken.Some? then Err(l.broken.value) else Ok(None)
    decreases Height(sheet, s)
  {
    match ResolveBase(sheet, s)
    case Err(e) => Lineage([s], Some(e))
    case Ok(None) => Lineage([s], None)
    case Ok(Some(b)) =>
      BaseIsLower(sheet, s, b);
      var rest := LineageOf(sheet, b);
      LinkedCons(sheet, s, rest.styles);
      Lineage([s] + rest.styles, rest.broken)
  }

  /** Putting a style in front of a linked sequence that starts with its
      base keeps it linked. */
  lemma LinkedCons(sheet: Stylesheet, s: Style, rest: seq<Style>)
    requires |rest| > 0 && ResolveBase(sheet, s) == Ok(Some(rest[0]))
    requires forall i :: 0 <= i < |rest| - 1 ==> LinkedAt(sheet, rest, i)
    ensures forall i :: 0 <= i < |rest| ==> LinkedAt(sheet, [s] + rest, i)
  {
    forall i | 0 <= i < |rest|
      ensures LinkedAt(sheet, [s] + rest, i)
    {
      if i > 0 {
        assert LinkedAt(sheet, rest, i - 1);
      }
    }
  }

  /** The last style of a lineage. */
  function Last(l: Lineage): Style
    requires |l.styles| > 0
  {
    l.styles[|l.styles| - 1]
  }

  /** The position of the first style in `styles` that sets `field`, or
      |styles| when none does. */
  function FirstSetting<T>(styles: seq<Style>, field: Style -> Option<T>): (k: nat)
    ensures k <= |styles|
    ensures forall j :: 0 <= j < k ==> field(styles[j]).None?
    ensures k < |styles| ==> field(styles[k]).Some?
  {
    if |styles| == 0 then 0
    else if field(styles[0]).Some? then 0
    else 1 + FirstSetting(styles[1..], field)
  }

  /** A style that does not set the field shifts the first setter by one. */
  lemma FirstSettingCons<T>(s: Style, rest: seq<Style>, field: Style -> Option<T>)
    requires field(s).None?
    ensures FirstSetting([s] + rest, field) == 1 + FirstSetting(rest, field)
  {
    assert ([s] + rest)[1..] == rest;
  }

  /** The reference reading of a cascade: the value of the nearest style of
      the lineage that sets the field; failing that, the lookup error that
      ended the lineage; failing that, the fallback of its last style. */
  function Settle<T>(l: Lineage, field: Style -> Option<T>, fallback: Style -> Result<T, Error>): Result<T, Error>
    requires |l.styles| > 0
  {
    var k := FirstSetting(l.styles, field);
    if k < |l.styles| then Ok(field(l.styles[k]).value)
    else if l.broken.Some? then Err(l.broken.value)
    else fallback(Last(l))
  }

  // ---------------------------------------------------------------------
  // The cascade shared by getFontStyle, getFontSize, getLeadingDimension,
  // getAlignment and the four get*Dimension methods
  // ---------------------------------------------------------------------

  /** The style's own value if set; otherwise the base style's resolution
      if there is a base; otherwise the fallback, which is a default or, for
      font size, an error naming this style. */
  function Cascade<T>(sheet: Stylesheet, s: Style, field: Style -> Option<T>, fallback: Style -> Result<T, Error>): (r: Result<T, Error>)
    requires Acyclic(sheet)
    ensures field(s).None? && ResolveBase(sheet, s) == Ok(None) ==> r == fallback(s)
    ensures field(s).None? && ResolveBase(sheet, s).Err? ==> r == Err(ResolveBase(sheet, s).error)
    decreases Height(sheet, s)
  {
    if field(s).Some? then Ok(field(s).value)
    else match ResolveBase(sheet, s)
      case Err(e) => Err(e)
      case Ok(None) => fallback(s)
      case Ok(Some(b)) =>
        BaseIsLower(sheet, s, b);
        Cascade(sheet, b, field, fallback)
  }

  /** The cascade computes the reference reading along the lineage. */
  lemma {:induction false} CascadeSettles<T>(sheet: Stylesheet, s: Style, field: Style -> Option<T>, fallback: Style -> Result<T, Error>)
    requires Acyclic(sheet)
    ensures Cascade(sheet, s, field, fallback) == Settle(LineageOf(sheet, s), field, fallback)
    decreases Height(sheet, s)
  {
    if field(s).None? {
      match ResolveBase(sheet, s)
      case Err(e) =>
      case Ok(None) =>
      case Ok(Some(b)) =>
        BaseIsLower(sheet, s, b);
        CascadeSettles(sheet, b, field, fallback);
        var rest := LineageOf(sheet, b);
        FirstSettingCons(s, rest.styles, field);
    }
  }

  /** Own override wins, whatever the base chain holds. */
  lemma OwnValueWins<T>(sheet: Stylesheet, s: Style, field: Style -> Option<T>, fallback: Style -> Result<T, Error>)
    requires Acyclic(sheet)
    requires field(s).Some?
    ensures Cascade(sheet, s, field, fallback) == Ok(field(s).value)
  {
  }

  /** Without an own value, a style resolves as its base style does. */
  lemma BaseValueInherited<T>(sheet: Stylesheet, s: Style, b: Style, field: Style -> Option<T>, fallback: Style -> Result<T, Error>)
    requires Acyclic(sheet)
    requires field(s).None? && ResolveBase(sheet, s) == Ok(Some(b))
    ensures Cascade(sheet, s, field, fallback) == Cascade(sheet, b, field, fallback)
  {
  }

  // ---------------------------------------------------------------------
  // The attributes
  // ---------------------------------------------------------------------

  function FontStyleField(s: Style): Option<FontStyleInfo> { s.fontStyle }
  function FontSizeField(s: Style): Option<Dimension> { s.fontSize }
  function LeadingField(s: Style): Option<Dimension> { s.leading }
  function AlignmentField(s: Style): Option<int> {
    if s.alignment.Some? then Some(s.alignment.value.value) else None
  }
  function SpacingBeforeField(s: Style): Option<Dimension> { s.spacingBefore }
  function SpacingAfterField(s: Style): Option<Dimension> { s.spacingAfter }
  function LeftIndentField(s: Style): Option<Dimension> { s.leftIndent }
  function FirstLineIndentField(s: Style): Option<Dimension> { s.firstLineIndent }

  function RegularDefault(s: Style): Result<FontStyleInfo, Error> { Ok(RegularFontStyle()) }
  function FontSizeMissing(s: Style): Result<Dimension, Error> { Err(FontSizeNotDefined(s.name)) }
  function OneEmDefault(s: Style): Result<Dimension, Error> { Ok(OneEm) }
  function LeftDefault(s: Style): Result<int, Error> { Ok(AlignLeft) }
  function ZeroPtDefault(s: Style): Result<Dimension, Error> { Ok(ZeroPt) }

  /** getFontStyle: the nearest emphasis of the lineage, else "regular". */
  function ResolveFontStyle(sheet: Stylesheet, s: Style): (r: Result<FontStyleInfo, Error>)
    requires Acyclic(sheet)
    ensures s.fontStyle.Some? ==> r == Ok(s.fontStyle.value)
    ensures var l := LineageOf(sheet, s); var k := FirstSetting(l.styles, FontStyleField);
            && (k < |l.styles| ==> r == Ok(l.styles[k].fontStyle.value))
            && (k == |l.styles| ==> r == if l.broken.Some? then Err(l.broken.value) else Ok(RegularFontStyle()))
  {
    CascadeSettles(sheet, s, FontStyleField, RegularDefault);
    Cascade(sheet, s, FontStyleField, RegularDefault)
  }

  /** getFontSize: the nearest font size of the lineage; there is no
      default, and the error names the style where the lineage ends. */
  function ResolveFontSize(sheet: Stylesheet, s: Style): (r: Result<Dimension, Error>)
    requires Acyclic(sheet)
    ensures s.fontSize.Some? ==> r == Ok(s.fontSize.value)
    ensures var l := LineageOf(sheet, s); var k := FirstSetting(l.styles, FontSizeField);
            && (k < |l.styles| ==> r == Ok(l.styles[k].fontSize.value))
            && (k == |l.styles| ==> r == Err(if l.broken.Some? then l.broken.value else FontSizeNotDefined(Last(l).name)))
  {
    CascadeSettles(sheet, s, FontSizeField, FontSizeMissing);
    Cascade(sheet, s, FontSizeField, FontSizeMissing)
  }

  /** getLeadingDimension: the nearest leading of the lineage, else 1em. */
  function ResolveLeading(sheet: Stylesheet, s: Style): (r: Result<Dimension, Error>)
    requires Acyclic(sheet)
    ensures s.leading.Some? ==> r == Ok(s.leading.value)
    ensures var l := LineageOf(sheet, s); var k := FirstSetting(l.styles, LeadingField);
            && (k < |l.styles| ==> r == Ok(l.styles[k].leading.value))
            && (k == |l.styles| ==> r == if l.broken.Some? then Err(l.broken.value) else Ok(OneEm))
  {
    CascadeSettles(sheet, s, LeadingField, OneEmDefault);
    Cascade(sheet, s, LeadingField, OneEmDefault)
  }

  /** getAlignment: the code of the nearest alignment of the lineage, else
      the left code. */
  function ResolveAlignment(sheet: Stylesheet, s: Style): (r: Result<int, Error>)
    requires Acyclic(sheet)
    ensures s.alignment.Some? ==> r == Ok(s.alignment.value.value)
    ensures var l := LineageOf(sheet, s); var k := FirstSetting(l.styles, AlignmentField);
            && (k < |l.styles| ==> r == Ok(l.styles[k].alignment.value.value))
            && (k == |l.styles| ==> r == if l.broken.Some? then Err(l.broken.value) else Ok(AlignLeft))
  {
    CascadeSettles(sheet, s, AlignmentField, LeftDefault);
    Cascade(sheet, s, AlignmentField, LeftDefault)
  }

  /** getSpacingBeforeDimension: the nearest value of the lineage, else 0pt. */
  function ResolveSpacingBefore(sheet: Stylesheet, s: Style): (r: Result<Dimension, Error>)
    requires Acyclic(sheet)
    ensures s.spacingBefore.Some? ==> r == Ok(s.spacingBefore.value)
    ensures var l := LineageOf(sheet, s); var k := FirstSetting(l.styles, SpacingBeforeField);
            && (k < |l.styles| ==> r == Ok(l.styles[k].spacingBefore.value))
            && (k == |l.styles| ==> r == if l.broken.Some? then Err(l.broken.value) else Ok(ZeroPt))
  {
    CascadeSettles(sheet, s, SpacingBeforeField, ZeroPtDefault);
    Cascade(sheet, s, SpacingBeforeField, ZeroPtDefault)
  }

  /** getSpacingAfterDimension: the nearest value of the lineage, else 0pt. */
  function ResolveSpacingAfter(sheet: Stylesheet, s: Style): (r: Result<Dimension, Error>)
    requires Acyclic(sheet)
    ensures s.spacingAfter.Some? ==> r == Ok(s.spacingAfter.value)
    ensures var l := LineageOf(sheet, s); var k := FirstSetting(l.styles, SpacingAfterField);
            && (k < |l.styles| ==> r == Ok(l.styles[k].spacingAfter.value))
            && (k == |l.styles| ==> r == if l.broken.Some? then Err(l.broken.value) else Ok(ZeroPt))
  {
    CascadeSettles(sheet, s, SpacingAfterField, ZeroPtDefault);
    Cascade(sheet, s, SpacingAfterField, ZeroPtDefault)
  }

  /** getLeftIndentDimension: the nearest value of the lineage, else 0pt. */
  function ResolveLeftIndent(sheet: Stylesheet, s: Style): (r: Result<Dimension, Error>)
    requires Acyclic(sheet)
    ensures s.leftIndent.Some? ==> r == Ok(s.leftIndent.value)
    ensures var l := LineageOf(sheet, s); var k := FirstSetting(l.styles, LeftIndentField);
            && (k < |l.styles| ==> r == Ok(l.styles[k].leftIndent.value))
            && (k == |l.styles| ==> r == if l.broken.Some? then Err(l.broken.value) else Ok(ZeroPt))
  {
    CascadeSettles(sheet, s, LeftIndentField, ZeroPtDefault);
    Cascade(sheet, s, LeftIndentField, ZeroPtDefault)
  }

  /** getFirstLineIndentDimension: the nearest value of the lineage, else 0pt. */
  function ResolveFirstLineIndent(sheet: Stylesheet, s: Style): (r: Result<Dimension, Error>)
    requires Acyclic(sheet)
    ensures s.firstLineIndent.Some? ==> r == Ok(s.firstLineIndent.value)
    ensures var l := LineageOf(sheet, s); var k := FirstSetting(l.styles, FirstLineIndentField);
            && (k < |l.styles| ==> r == Ok(l.styles[k].firstLineIndent.value))
            && (k == |l.styles| ==> r == if l.broken.Some? then Err(l.broken.value) else Ok(ZeroPt))
  {
    CascadeSettles(sheet, s, FirstLineIndentField, ZeroPtDefault);
    Cascade(sheet, s, FirstLineIndentField, ZeroPtDefault)
  }

  // ---------------------------------------------------------------------
  // getFontFamily: checks the stylesheet first, at every step
  // ---------------------------------------------------------------------

  /** getFontFamily: fails at once without a stylesheet; otherwise looks up
      the style's own family name, or resolves on the base style, or fails
      naming this style. */
  function ResolveFontFamily(sheet: Stylesheet, s: Style): (r: Result<FontFamily, Error>)
    requires Acyclic(sheet)
    ensures !s.hasStylesheet ==> r == Err(StylesheetNotSet)
    ensures s.hasStylesheet && s.fontFamily.Some? ==> r == LookupFontFamily(sheet, s.fontFamily.value)
    decreases Height(sheet, s)
  {
    if !s.hasStylesheet then Err(StylesheetNotSet)
    else if s.fontFamily.Some? then LookupFontFamily(sheet, s.fontFamily.value)
    else match ResolveBase(sheet, s)
      case Err(e) => Err(e)
      case Ok(None) => Err(FontFamilyNotDefined(s.name))
      case Ok(Some(b)) =>
        BaseIsLower(sheet, s, b);
        ResolveFontFamily(sheet, b)
  }

  function FontFamilyField(s: Style): Option<string> { s.fontFamily }

  /** The reference reading of getFontFamily along a lineage: the family
      named by the nearest style of the lineage that names one, looked up
      in the stylesheet. The style where the walk stops (that one, or the
      last of the lineage) must have a stylesheet; a lineage cut short by a
      failed lookup fails with that failure; one that names no family fails
      naming its last style. */
  function FamilyVerdict(sheet: Stylesheet, l: Lineage): Result<FontFamily, Error>
    requires |l.styles| > 0
  {
    var k := FirstSetting(l.styles, FontFamilyField);
    var t := if k < |l.styles| then l.styles[k] else Last(l);
    if !t.hasStylesheet then Err(StylesheetNotSet)
    else if k < |l.styles| then LookupFontFamily(sheet, t.fontFamily.value)
    else if l.broken.Some? then Err(l.broken.value)
    else Err(FontFamilyNotDefined(t.name))
  }

  /** getFontFamily computes the reference reading along the lineage. */
  lemma {:induction false} FontFamilyAlongLineage(sheet: Stylesheet, s: Style)
    requires Acyclic(sheet)
    ensures ResolveFontFamily(sheet, s) == FamilyVerdict(sheet, LineageOf(sheet, s))
    decreases Height(sheet, s)
  {
    if s.fontFamily.None? && s.hasStylesheet {
      match ResolveBase(sheet, s)
      case Err(e) =>
      case Ok(None) =>
      case Ok(Some(b)) =>
        BaseIsLower(sheet, s, b);
        FontFamilyAlongLineage(sheet, b);
        var rest := LineageOf(sheet, b);
        var l := Lineage([s] + rest.styles, rest.broken);
        assert LineageOf(sheet, s) == l;
        FirstSettingCons(s, rest.styles, FontFamilyField);
        assert Last(l) == Last(rest);
        var k := FirstSetting(rest.styles, FontFamilyField);
        if k < |rest.styles| {
          assert l.styles[k + 1] == rest.styles[k];
        }
    }
  }

  // ---------------------------------------------------------------------
  // getFont
  // ---------------------------------------------------------------------

  /** The variant getFont takes from a family for an emphasis. */
  function Variant(family: FontFamily, info: FontStyleInfo): (r: FontFace)
    ensures !info.bold && !info.italic ==> r == family.regular
    ensures info.bold && !info.italic ==> r == family.bold
    ensures !info.bold && info.italic ==> r == family.italic
    ensures info.bold && info.italic ==> r == family.boldItalic
  {
    if info.italic then (if info.bold then family.boldItalic else family.italic)
    else if info.bold then family.bold else family.regular
  }

  /** Each emphasis word selects the variant of the same name. */
  lemma VariantOfToken(family: FontFamily, style: string)
    requires ParseFontStyle(style).Ok?
    ensures Variant(family, ParseFontStyle(style).value) ==
              if EqualsIgnoreCase(style, "regular") then family.regular
              else if EqualsIgnoreCase(style, "bold") then family.bold
              else if EqualsIgnoreCase(style, "italic") then family.italic
              else family.boldItalic
  {
  }

  /** getFont: the family, then the emphasis, then the size in absolute
      points; the first failure is the result. */
  function ResolveFont(sheet: Stylesheet, s: Style): (r: Result<Font, Error>)
    requires Acyclic(sheet)
    ensures r.Ok? <==>
              && ResolveFontFamily(sheet, s).Ok?
              && ResolveFontStyle(sheet, s).Ok?
              && ResolveFontSize(sheet, s).Ok? && ResolveFontSize(sheet, s).value.Pt?
    ensures ResolveFontFamily(sheet, s).Err? ==> r == Err(ResolveFontFamily(sheet, s).error)
    ensures ResolveFontFamily(sheet, s).Ok? && ResolveFontStyle(sheet, s).Err? ==>
              r == Err(ResolveFontStyle(sheet, s).error)
    ensures ResolveFontFamily(sheet, s).Ok? && ResolveFontStyle(sheet, s).Ok? && ResolveFontSize(sheet, s).Err? ==>
              r == Err(ResolveFontSize(sheet, s).error)
    ensures ResolveFontFamily(sheet, s).Ok? && ResolveFontStyle(sheet, s).Ok? &&
            ResolveFontSize(sheet, s).Ok? && ResolveFontSize(sheet, s).value.Em? ==>
              r == Err(RelativeDimension)
    ensures r.Ok? ==> r.value.size == ResolveFontSize(sheet, s).value.points
    ensures r.Ok? ==> r.value.face == Variant(ResolveFontFamily(sheet, s).value, ResolveFontStyle(sheet, s).value)
  {
    var family :- ResolveFontFamily(sheet, s);
    var info :- ResolveFontStyle(sheet, s);
    var size :- ResolveFontSize(sheet, s);
    var points :- size.Points();
    Ok(Font(Variant(family, info), points))
  }

  /** A style's stored emphasis and alignment are as the deserialiser
      builds them. */
  predicate WellFormed(s: Style) {
    && (s.fontStyle.Some? ==> IsParsedFontStyle(s.fontStyle.value))
    && (s.alignment.Some? ==> IsParsedAlignment(s.alignment.value))
  }

  predicate WellFormedSheet(sheet: Stylesheet) {
    forall n :: n in sheet.styles ==> WellFormed(sheet.styles[n])
  }

  /** Every style of a lineage but the first is registered. */
  lemma LineageIsRegistered(sheet: Stylesheet, s: Style, i: nat)
    requires Acyclic(sheet)
    requires 0 < i < |LineageOf(sheet, s).styles|
    ensures LineageOf(sheet, s).styles[i] in sheet.styles.Values
  {
    var l := LineageOf(sheet, s);
    assert LinkedAt(sheet, l.styles, i - 1);
  }

  /** In a well-formed stylesheet the emphasis in force is one the
      deserialiser built: the nearest one of the lineage, or "regular". */
  lemma ResolvedFontStyleIsParsed(sheet: Stylesheet, s: Style)
    requires Acyclic(sheet) && WellFormedSheet(sheet) && WellFormed(s)
    requires ResolveFontStyle(sheet, s).Ok?
    ensures IsParsedFontStyle(ResolveFontStyle(sheet, s).value)
  {
    var l := LineageOf(sheet, s);
    var k := FirstSetting(l.styles, FontStyleField);
    if 0 < k < |l.styles| {
      LineageIsRegistered(sheet, s, k);
    }
  }

  /** In a well-formed stylesheet the font is the variant named by the
      emphasis word in force. */
  lemma FontFollowsEmphasisWord(sheet: Stylesheet, s: Style)
    requires Acyclic(sheet) && WellFormedSheet(sheet) && WellFormed(s)
    requires ResolveFont(sheet, s).Ok?
    ensures var family := ResolveFontFamily(sheet, s).value;
            var style := ResolveFontStyle(sheet, s).value.style;
            && ParseFontStyle(style).Ok?
            && ResolveFont(sheet, s).value.face ==
                 if EqualsIgnoreCase(style, "regular") then family.regular
                 else if EqualsIgnoreCase(style, "bold") then family.bold
                 else if EqualsIgnoreCase(style, "italic") then family.italic
                 else family.boldItalic
  {
    ResolvedFontStyleIsParsed(sheet, s);
    var info := ResolveFontStyle(sheet, s).value;
    VariantOfToken(ResolveFontFamily(sheet, s).value, info.style);
  }

  /** In a well-formed stylesheet the alignment in force is one of the four
      codes. */
  lemma AlignmentIsACode(sheet: Stylesheet, s: Style)
    requires Acyclic(sheet) && WellFormedSheet(sheet) && WellFormed(s)
    requires ResolveAlignment(sheet, s).Ok?
    ensures ResolveAlignment(sheet, s).value in {AlignLeft, AlignCenter, AlignRight, AlignJustified}
  {
    var l := LineageOf(sheet, s);
    var k := FirstSetting(l.styles, AlignmentField);
    if 0 < k < |l.styles| {
      LineageIsRegistered(sheet, s, k);
    }
  }

  // ---------------------------------------------------------------------
  // Lengths in points: against this style's own resolved font size
  // ---------------------------------------------------------------------

  /** `dimension.getPoints(getFontSize().getPoints())`: the dimension is
      resolved first, then the font size, which must be absolute. */
  function Evaluate(dimension: Result<Dimension, Error>, fontSize: Result<Dimension, Error>): (r: Result<real, Error>)
    ensures dimension.Err? ==> r == Err(dimension.error)
    ensures dimension.Ok? && fontSize.Err? ==> r == Err(fontSize.error)
    ensures dimension.Ok? && fontSize.Ok? && fontSize.value.Em? ==> r == Err(RelativeDimension)
    ensures r.Ok? <==> dimension.Ok? && fontSize.Ok? && fontSize.value.Pt?
    ensures r.Ok? ==> r.value == dimension.value.PointsRelativeTo(fontSize.value.points)
  {
    var d :- dimension;
    var size :- fontSize;
    var points :- size.Points();
    Ok(d.PointsRelativeTo(points))
  }

  /** getAbsoluteLeading */
  function AbsoluteLeading(sheet: Stylesheet, s: Style): (r: Result<real, Error>)
    requires Acyclic(sheet)
    ensures ResolveLeading(sheet, s).Err? ==> r == Err(ResolveLeading(sheet, s).error)
    ensures ResolveLeading(sheet, s).Ok? && ResolveFontSize(sheet, s).Err? ==> r == Err(ResolveFontSize(sheet, s).error)
    ensures ResolveLeading(sheet, s).Ok? && ResolveFontSize(sheet, s).Ok? && ResolveFontSize(sheet, s).value.Em? ==>
              r == Err(RelativeDimension)
    ensures r.Ok? <==> ResolveLeading(sheet, s).Ok? && ResolveFontSize(sheet, s).Ok? && ResolveFontSize(sheet, s).value.Pt?
    ensures r.Ok? ==> r.value == ResolveLeading(sheet, s).value.PointsRelativeTo(ResolveFontSize(sheet, s).value.points)
  {
    Evaluate(ResolveLeading(sheet, s), ResolveFontSize(sheet, s))
  }

  /** getRelativeLeading: always zero. */
  function RelativeLeading(s: Style): (r: real)
    ensures r == 0.0
  {
    0.0
  }

  /** getSpacingBefore */
  function SpacingBefore(sheet: Stylesheet, s: Style): (r: Result<real, Error>)
    requires Acyclic(sheet)
    ensures ResolveSpacingBefore(sheet, s).Err? ==> r == Err(ResolveSpacingBefore(sheet, s).error)
    ensures ResolveSpacingBefore(sheet, s).Ok? && ResolveFontSize(sheet, s).Err? ==> r == Err(ResolveFontSize(sheet, s).error)
    ensures ResolveSpacingBefore(sheet, s).Ok? && ResolveFontSize(sheet, s).Ok? && ResolveFontSize(sheet, s).value.Em? ==>
              r == Err(RelativeDimension)
    ensures r.Ok? <==> ResolveSpacingBefore(sheet, s).Ok? && ResolveFontSize(sheet, s).Ok? && ResolveFontSize(sheet, s).value.Pt?
    ensures r.Ok? ==> r.value == ResolveSpacingBefore(sheet, s).value.PointsRelativeTo(ResolveFontSize(sheet, s).value.points)
  {
    Evaluate(ResolveSpacingBefore(sheet, s), ResolveFontSize(sheet, s))
  }

  /** getSpacingAfter */
  function SpacingAfter(sheet: Stylesheet, s: Style): (r: Result<real, Error>)
    requires Acyclic(sheet)
    ensures ResolveSpacingAfter(sheet, s).Err? ==> r == Err(ResolveSpacingAfter(sheet, s).error)
    ensures ResolveSpacingAfter(sheet, s).Ok? && ResolveFontSize(sheet, s).Err? ==> r == Err(ResolveFontSize(sheet, s).error)
    ensures ResolveSpacingAfter(sheet, s).Ok? && ResolveFontSize(sheet, s).Ok? && ResolveFontSize(sheet, s).value.Em? ==>
              r == Err(RelativeDimension)
    ensures r.Ok? <==> ResolveSpacingAfter(sheet, s).Ok? && ResolveFontSize(sheet, s).Ok? && ResolveFontSize(sheet, s).value.Pt?
    ensures r.Ok? ==> r.value == ResolveSpacingAfter(sheet, s).value.PointsRelativeTo(ResolveFontSize(sheet, s).value.points)
  {
    Evaluate(ResolveSpacingAfter(sheet, s), ResolveFontSize(sheet, s))
  }

  /** getLeftIndent */
  function LeftIndent(sheet: Stylesheet, s: Style): (r: Result<real, Error>)
    requires Acyclic(sheet)
    ensures ResolveLeftIndent(sheet, s).Err? ==> r == Err(ResolveLeftIndent(sheet, s).error)
    ensures ResolveLeftIndent(sheet, s).Ok? && ResolveFontSize(sheet, s).Err? ==> r == Err(ResolveFontSize(sheet, s).error)
    ensures ResolveLeftIndent(sheet, s).Ok? && ResolveFontSize(sheet, s).Ok? && ResolveFontSize(sheet, s).value.Em? ==>
              r == Err(RelativeDimension)
    ensures r.Ok? <==> ResolveLeftIndent(sheet, s).Ok? && ResolveFontSize(sheet, s).Ok? && ResolveFontSize(sheet, s).value.Pt?
    ensures r.Ok? ==> r.value == ResolveLeftIndent(sheet, s).value.PointsRelativeTo(ResolveFontSize(sheet, s).value.points)
  {
    Evaluate(ResolveLeftIndent(sheet, s), ResolveFontSize(sheet, s))
  }

  /** getFirstLineIndent */
  function FirstLineIndent(sheet: Stylesheet, s: Style): (r: Result<real, Error>)
    requires Acyclic(sheet)
    ensures ResolveFirstLineIndent(sheet, s).Err? ==> r == Err(ResolveFirstLineIndent(sheet, s).error)
    ensures ResolveFirstLineIndent(sheet, s).Ok? && ResolveFontSize(sheet, s).Err? ==> r == Err(ResolveFontSize(sheet, s).error)
    ensures ResolveFirstLineIndent(sheet, s).Ok? && ResolveFontSize(sheet, s).Ok? && ResolveFontSize(sheet, s).value.Em? ==>
              r == Err(RelativeDimension)
    ensures r.Ok? <==> ResolveFirstLineIndent(sheet, s).Ok? && ResolveFontSize(sheet, s).Ok? && ResolveFontSize(sheet, s).value.Pt?
    ensures r.Ok? ==> r.value == ResolveFirstLineIndent(sheet, s).value.PointsRelativeTo(ResolveFontSize(sheet, s).value.points)
  {
    Evaluate(ResolveFirstLineIndent(sheet, s), ResolveFontSize(sheet, s))
  }

  /** With no leading anywhere in an unbroken lineage, the leading is the
      font size. */
  lemma DefaultLeadingIsFontSize(sheet: Stylesheet, s: Style, size: real)
    requires Acyclic(sheet)
    requires LineageOf(sheet, s).broken.None?
    requires forall t :: t in LineageOf(sheet, s).styles ==> t.leading.None?
    requires ResolveFontSize(sheet, s) == Ok(Pt(size))
    ensures AbsoluteLeading(sheet, s) == Ok(size)
  {
    var l := LineageOf(sheet, s);
    var k := FirstSetting(l.styles, LeadingField);
    assert k == |l.styles|;
    assert ResolveLeading(sheet, s) == Ok(OneEm);
  }

  /** An inherited relative indent is measured against the font size of the
      style asking, not of the style that set the indent. */
  lemma InheritedIndentUsesOwnFontSize(sheet: Stylesheet, s: Style, b: Style, size: real, factor: real)
    requires Acyclic(sheet)
    requires ResolveBase(sheet, s) == Ok(Some(b))
    requires s.fontSize == Some(Pt(size)) && s.leftIndent.None?
    requires ResolveLeftIndent(sheet, b) == Ok(Em(factor))
    ensures LeftIndent(sheet, s) == Ok(factor * size)
  {
    BaseValueInherited(sheet, s, b, LeftIndentField, ZeroPtDefault);
    assert ResolveLeftIndent(sheet, s) == Ok(Em(factor));
    assert ResolveFontSize(sheet, s) == Ok(Pt(size));
    EvaluateRelative(factor, size);
  }

  /** A relative length against an absolute size of p points. */
  lemma EvaluateRelative(factor: real, size: real)
    ensures Evaluate(Ok(Em(factor)), Ok(Pt(size))) == Ok(factor * size)
  {
    var r := Evaluate(Ok(Em(factor)), Ok(Pt(size)));
    assert r.Ok? && r.value == factor * size;
  }

  // ---------------------------------------------------------------------
  // Worked examples
  // ---------------------------------------------------------------------

  /** A style with only a name set. */
  function Blank(name: string, base: Option<string>): Style {
    Style(name, base, true, None, None, None, None, None, None, None, None, None)
  }

  function Body(): Style {
    Blank("body", None).(fontFamily := Some("Serif"), fontSize := Some(Pt(12.0)))
  }

  function Quote(): Style {
    Blank("quote", Some("body")).(alignment := Some(AlignmentInfo("center", AlignCenter)), leftIndent := Some(Em(1.0)))
  }

  function QuoteSheet(serif: FontFamily): Stylesheet {
    Stylesheet(map["body" := Body(), "quote" := Quote()], map["Serif" := serif])
  }

  lemma QuoteSheetIsAcyclic(serif: FontFamily)
    ensures Acyclic(QuoteSheet(serif))
    ensures ResolveBase(QuoteSheet(serif), Quote()) == Ok(Some(Body()))
    ensures ResolveBase(QuoteSheet(serif), Body()) == Ok(None)
  {
    assert Ranked(QuoteSheet(serif), map["body" := 0, "quote" := 1]);
  }

  lemma QuoteFontSize(serif: FontFamily)
    ensures Acyclic(QuoteSheet(serif)) && ResolveFontSize(QuoteSheet(serif), Quote()) == Ok(Pt(12.0))
  {
    QuoteSheetIsAcyclic(serif);
    BaseValueInherited(QuoteSheet(serif), Quote(), Body(), FontSizeField, FontSizeMissing);
  }

  lemma QuoteLeading(serif: FontFamily)
    ensures Acyclic(QuoteSheet(serif)) && AbsoluteLeading(QuoteSheet(serif), Quote()) == Ok(12.0)
  {
    QuoteFontSize(serif);
    var sheet := QuoteSheet(serif);
    assert Cascade(sheet, Body(), LeadingField, OneEmDefault) == Ok(OneEm);
    BaseValueInherited(sheet, Quote(), Body(), LeadingField, OneEmDefault);
    EvaluateRelative(1.0, 12.0);
  }

  lemma QuoteFont(serif: FontFamily)
    ensures Acyclic(QuoteSheet(serif)) && ResolveFont(QuoteSheet(serif), Quote()) == Ok(Font(serif.regular, 12.0))
  {
    QuoteFontSize(serif);
    var sheet := QuoteSheet(serif);
    assert ResolveFontFamily(sheet, Body()) == Ok(serif);
    assert ResolveFontFamily(sheet, Quote()) == Ok(serif);
    assert Cascade(sheet, Body(), FontStyleField, RegularDefault) == Ok(RegularFontStyle());
    BaseValueInherited(sheet, Quote(), Body(), FontStyleField, RegularDefault);
  }

  /** "body" sets family Serif and size 12pt; "quote" is based on it and
      sets center alignment and a 1em left indent. The quote is centered,
      inherits 12pt, and its 1em indent and default leading are 12pt. */
  lemma QuoteInheritsFromBody(serif: FontFamily)
    ensures Acyclic(QuoteSheet(serif))
    ensures ResolveAlignment(QuoteSheet(serif), Quote()) == Ok(AlignCenter)
    ensures ResolveFontSize(QuoteSheet(serif), Quote()) == Ok(Pt(12.0))
    ensures LeftIndent(QuoteSheet(serif), Quote()) == Ok(12.0)
    ensures AbsoluteLeading(QuoteSheet(serif), Quote()) == Ok(12.0)
    ensures ResolveFont(QuoteSheet(serif), Quote()) == Ok(Font(serif.regular, 12.0))
  {
    QuoteFontSize(serif);
    QuoteLeading(serif);
    QuoteFont(serif);
    EvaluateRelative(1.0, 12.0);
  }

  /** A style with no base and no family cannot resolve its family. */
  lemma OrphanHasNoFamily()
    ensures var orphan := Blank("orphan", None);
            var sheet := Stylesheet(map["orphan" := orphan], map[]);
            && Acyclic(sheet)
            && ResolveFontFamily(sheet, orphan) == Err(FontFamilyNotDefined("orphan"))
  {
    var orphan := Blank("orphan", None);
    var sheet := Stylesheet(map["orphan" := orphan], map[]);
    assert Ranked(sheet, map["orphan" := 0]);
  }
}
