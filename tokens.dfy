/** The two closed-vocabulary attribute codecs of ParagraphStyle.java:
    FontStyleInfo (emphasis) and AlignmentInfo (alignment). Each is built
    from a string by a case-insensitive match against four words, keeps
    that string exactly as given, and hands it back when serialised. */
module Tokens {
  import opened Wrappers
  import opened Errors

  // ---------------------------------------------------------------------
  // Java's String.equalsIgnoreCase, against a lower-case ASCII word
  // ---------------------------------------------------------------------

  /** The vocabularies consist of such words only. */
  predicate IsLowerAsciiWord(w: string) {
    forall i :: 0 <= i < |w| ==> 'a' <= w[i] <= 'z'
  }

  /** Character.toUpperCase, restricted to the code points whose upper case
      is an ASCII letter: a-z, dotless i (U+0131) and long s (U+017F).
      Every other code point is left as it is. */
  function UpperCase(c: char): char {
    if 'a' <= c <= 'z' then (c as int - 32) as char
    else if c == '\U{0131}' then 'I'
    else if c == '\U{017F}' then 'S'
    else c
  }

  /** Character.toLowerCase, restricted to the code points whose lower case
      is an ASCII letter: A-Z, dotted capital I (U+0130) and the Kelvin
      sign (U+212A). Every other code point is left as it is. */
  function LowerCase(c: char): char {
    if 'A' <= c <= 'Z' then (c as int + 32) as char
    else if c == '\U{0130}' then 'i'
    else if c == '\U{212A}' then 'k'
    else c
  }

  /** The per-character test of String.regionMatches(true, ...): equal, or
      equal upper cases, or equal lower cases of the upper cases. Exact
      whenever `d` is an ASCII letter, which is all the vocabularies need. */
  predicate CharEqualsIgnoreCase(c: char, d: char) {
    || c == d
    || UpperCase(c) == UpperCase(d)
    || LowerCase(UpperCase(c)) == LowerCase(UpperCase(d))
  }

  /** `s.equalsIgnoreCase(w)` for a lower-case ASCII word `w`: same length,
      and every character matches the word's character at that position. */
  predicate EqualsIgnoreCase(s: string, w: string)
    requires IsLowerAsciiWord(w)
  {
    |s| == |w| && forall i :: 0 <= i < |s| ==> CharEqualsIgnoreCase(s[i], w[i])
  }

  /** Which characters match a lower-case ASCII letter: the letter, its
      capital, and the four non-ASCII code points that Java folds onto
      i, s or k. */
  lemma LetterMatches(c: char, w: char)
    requires 'a' <= w <= 'z'
    ensures CharEqualsIgnoreCase(c, w) <==>
              || c == w
              || c as int == w as int - 32
              || (w == 'i' && (c == '\U{0130}' || c == '\U{0131}'))
              || (w == 's' && c == '\U{017F}')
              || (w == 'k' && c == '\U{212A}')
  {
  }

  // ---------------------------------------------------------------------
  // FontStyleInfo
  // ---------------------------------------------------------------------

  /** The string it was built from and the two flags that select a font
      variant. */
  datatype FontStyleInfo = FontStyleInfo(style: string, bold: bool, italic: bool)

  /** The FontStyleInfo constructor: tries regular, bold, italic and
      bolditalic in turn, ignoring case; anything else is rejected with a
      message naming the token. */
  function ParseFontStyle(style: string): (r: Result<FontStyleInfo, Error>)
    ensures r.Ok? ==> r.value.style == style
    ensures r.Err? ==> r.error == InvalidStyle(style)
  {
    if EqualsIgnoreCase(style, "regular") then Ok(FontStyleInfo(style, false, false))
    else if EqualsIgnoreCase(style, "bold") then Ok(FontStyleInfo(style, true, false))
    else if EqualsIgnoreCase(style, "italic") then Ok(FontStyleInfo(style, false, true))
    else if EqualsIgnoreCase(style, "bolditalic") then Ok(FontStyleInfo(style, true, true))
    else Err(InvalidStyle(style))
  }

  /** What the JSON serialiser writes for a FontStyleInfo. For a
      deserialised value, the word written names its flags. */
  function SerializeFontStyle(info: FontStyleInfo): (r: string)
    ensures IsParsedFontStyle(info) ==>
              (info.bold <==> EqualsIgnoreCase(r, "bold") || EqualsIgnoreCase(r, "bolditalic"))
    ensures IsParsedFontStyle(info) ==>
              (info.italic <==> EqualsIgnoreCase(r, "italic") || EqualsIgnoreCase(r, "bolditalic"))
  {
    info.style
  }

  /** A FontStyleInfo as the deserialiser produces it. */
  predicate IsParsedFontStyle(info: FontStyleInfo) {
    ParseFontStyle(info.style) == Ok(info)
  }

  /** The emphasis used when no style of a chain sets one: the object built
      from "regular". */
  function RegularFontStyle(): (info: FontStyleInfo)
    ensures ParseFontStyle("regular") == Ok(info)
    ensures !info.bold && !info.italic
  {
    FontStyleInfo("regular", false, false)
  }

  /** Exactly the four words are accepted, each with its own pair of flags,
      whatever the casing. */
  lemma FontStyleVocabulary(style: string)
    ensures ParseFontStyle(style) == Ok(FontStyleInfo(style, false, false)) <==> EqualsIgnoreCase(style, "regular")
    ensures ParseFontStyle(style) == Ok(FontStyleInfo(style, true, false)) <==> EqualsIgnoreCase(style, "bold")
    ensures ParseFontStyle(style) == Ok(FontStyleInfo(style, false, true)) <==> EqualsIgnoreCase(style, "italic")
    ensures ParseFontStyle(style) == Ok(FontStyleInfo(style, true, true)) <==> EqualsIgnoreCase(style, "bolditalic")
    ensures ParseFontStyle(style).Err? <==>
              !EqualsIgnoreCase(style, "regular") && !EqualsIgnoreCase(style, "bold") &&
              !EqualsIgnoreCase(style, "italic") && !EqualsIgnoreCase(style, "bolditalic")
  {
  }

  /** Serialising an accepted token gives back that very string, casing
      included. */
  lemma FontStyleRoundTrip(style: string)
    requires ParseFontStyle(style).Ok?
    ensures SerializeFontStyle(ParseFontStyle(style).value) == style
  {
  }

  /** Deserialising what was serialised gives back the same object. */
  lemma FontStyleReparse(style: string)
    requires ParseFontStyle(style).Ok?
    ensures ParseFontStyle(SerializeFontStyle(ParseFontStyle(style).value)) == ParseFontStyle(style)
  {
  }

  lemma FontStyleExamples()
    ensures ParseFontStyle("BoldItalic") == Ok(FontStyleInfo("BoldItalic", true, true))
    ensures SerializeFontStyle(ParseFontStyle("ITALIC").value) == "ITALIC"
    ensures ParseFontStyle("bold ") == Err(InvalidStyle("bold "))
    ensures ParseFontStyle("") == Err(InvalidStyle(""))
  {
  }

  // ---------------------------------------------------------------------
  // AlignmentInfo
  // ---------------------------------------------------------------------

  /** The alignment codes of the rendering library (its Element interface). */
  const AlignLeft: int := 0
  const AlignCenter: int := 1
  const AlignRight: int := 2
  const AlignJustified: int := 3

  /** The string it was built from and the alignment code it stands for. */
  datatype AlignmentInfo = AlignmentInfo(alignment: string, value: int)

  /** The AlignmentInfo constructor: left, center, right or justified,
      ignoring case; anything else is rejected with a message naming the
      token. */
  function ParseAlignment(alignment: string): (r: Result<AlignmentInfo, Error>)
    ensures r.Ok? ==> r.value.alignment == alignment
    ensures r.Ok? ==> r.value.value in {AlignLeft, AlignCenter, AlignRight, AlignJustified}
    ensures r.Err? ==> r.error == InvalidAlignment(alignment)
  {
    if EqualsIgnoreCase(alignment, "left") then Ok(AlignmentInfo(alignment, AlignLeft))
    else if EqualsIgnoreCase(alignment, "center") then Ok(AlignmentInfo(alignment, AlignCenter))
    else if EqualsIgnoreCase(alignment, "right") then Ok(AlignmentInfo(alignment, AlignRight))
    else if EqualsIgnoreCase(alignment, "justified") then Ok(AlignmentInfo(alignment, AlignJustified))
    else Err(InvalidAlignment(alignment))
  }

  /** What the JSON serialiser writes for an AlignmentInfo. For a
      deserialised value, the word written names its code. */
  function SerializeAlignment(info: AlignmentInfo): (r: string)
    ensures IsParsedAlignment(info) ==> (info.value == AlignLeft <==> EqualsIgnoreCase(r, "left"))
    ensures IsParsedAlignment(info) ==> (info.value == AlignCenter <==> EqualsIgnoreCase(r, "center"))
    ensures IsParsedAlignment(info) ==> (info.value == AlignRight <==> EqualsIgnoreCase(r, "right"))
    ensures IsParsedAlignment(info) ==> (info.value == AlignJustified <==> EqualsIgnoreCase(r, "justified"))
  {
    info.alignment
  }

  /** An AlignmentInfo as the deserialiser produces it. */
  predicate IsParsedAlignment(info: AlignmentInfo) {
    ParseAlignment(info.alignment) == Ok(info)
  }

  /** Exactly the four words are accepted, each with its own code, whatever
      the casing; the four codes are distinct. */
  lemma AlignmentVocabulary(alignment: string)
    ensures ParseAlignment(alignment) == Ok(AlignmentInfo(alignment, AlignLeft)) <==> EqualsIgnoreCase(alignment, "left")
    ensures ParseAlignment(alignment) == Ok(AlignmentInfo(alignment, AlignCenter)) <==> EqualsIgnoreCase(alignment, "center")
    ensures ParseAlignment(alignment) == Ok(AlignmentInfo(alignment, AlignRight)) <==> EqualsIgnoreCase(alignment, "right")
    ensures ParseAlignment(alignment) == Ok(AlignmentInfo(alignment, AlignJustified)) <==> EqualsIgnoreCase(alignment, "justified")
    ensures ParseAlignment(alignment).Err? <==>
              !EqualsIgnoreCase(alignment, "left") && !EqualsIgnoreCase(alignment, "center") &&
              !EqualsIgnoreCase(alignment, "right") && !EqualsIgnoreCase(alignment, "justified")
    ensures |{AlignLeft, AlignCenter, AlignRight, AlignJustified}| == 4
  {
  }

  /** Two accepted tokens give the same code exactly when they spell the
      same word up to case. */
  lemma AlignmentCodesDistinguishWords(a: string, b: string)
    requires ParseAlignment(a).Ok? && ParseAlignment(b).Ok?
    ensures ParseAlignment(a).value.value == ParseAlignment(b).value.value <==>
              (EqualsIgnoreCase(a, "left") <==> EqualsIgnoreCase(b, "left")) &&
              (EqualsIgnoreCase(a, "center") <==> EqualsIgnoreCase(b, "center")) &&
              (EqualsIgnoreCase(a, "right") <==> EqualsIgnoreCase(b, "right"))
  {
  }

  /** Serialising an accepted token gives back that very string. */
  lemma AlignmentRoundTrip(alignment: string)
    requires ParseAlignment(alignment).Ok?
    ensures SerializeAlignment(ParseAlignment(alignment).value) == alignment
  {
  }

  /** Deserialising what was serialised gives back the same object. */
  lemma AlignmentReparse(alignment: string)
    requires ParseAlignment(alignment).Ok?
    ensures ParseAlignment(SerializeAlignment(ParseAlignment(alignment).value)) == ParseAlignment(alignment)
  {
  }

  lemma AlignmentExamples()
    ensures ParseAlignment("Center") == Ok(AlignmentInfo("Center", AlignCenter))
    ensures ParseAlignment("JUSTIFIED").value.value == AlignJustified
    ensures ParseAlignment("centre") == Err(InvalidAlignment("centre"))
  {
    assert !CharEqualsIgnoreCase("centre"[4], "center"[4]);
  }
}
