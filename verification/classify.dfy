/** Line-break classification of code points.

    A fixed table maps a handful of code points to a token type; the token
    types are ordered so that the space-like ones and the dash-like ones each
    form a contiguous range, and two range checks decide whether a type is a
    space or a hyphen. Every code point not in the table is ordinary text. The
    table is a curated subset of the line-breaking properties of Unicode
    Standard Annex #14, not a conformant implementation of it. */
module Classify {

  /** Token types. The values follow declaration order, and the range checks
      `IsSpace` and `IsHyphen` rely on it: tab and the whitespace types form
      one contiguous range, the dash types the next. */
  newtype TokenType = int

  const None: TokenType := 0
  const Error: TokenType := 1
  const EOF: TokenType := 2
  const Text: TokenType := 3
  const ZeroWidthNoBreakSpace: TokenType := 4
  const NL: TokenType := 5
  const CR: TokenType := 6
  const Tab: TokenType := 7
  const Space: TokenType := 8
  const OghamSpaceMark: TokenType := 9
  const MongolianVowelSeparator: TokenType := 10
  const EnQuad: TokenType := 11
  const EmQuad: TokenType := 12
  const EnSpace: TokenType := 13
  const EmSpace: TokenType := 14
  const ThreePerEmSpace: TokenType := 15
  const FourPerEmSpace: TokenType := 16
  const SixPerEmSpace: TokenType := 17
  const FigureSpace: TokenType := 18
  const PunctuationSpace: TokenType := 19
  const ThinSpace: TokenType := 20
  const HairSpace: TokenType := 21
  const ZeroWidthSpace: TokenType := 22
  const MediumMathematicalSpace: TokenType := 23
  const IdeographicSpace: TokenType := 24
  const HyphenMinus: TokenType := 25
  const SoftHyphen: TokenType := 26
  const ArmenianHyphen: TokenType := 27
  const Hyphen: TokenType := 28
  const FigureDash: TokenType := 29
  const EnDash: TokenType := 30
  const EmDash: TokenType := 31
  const HorizontalBar: TokenType := 32
  const SwungDash: TokenType := 33
  const SuperscriptMinus: TokenType := 34
  const SubscriptMinus: TokenType := 35
  const TwoEmDash: TokenType := 36
  const ThreeEmDash: TokenType := 37
  const PresentationFormForVerticalEmDash: TokenType := 38
  const PresentationFormForVerticalEnDash: TokenType := 39
  const SmallEmDash: TokenType := 40
  const SmallHyphenMinus: TokenType := 41
  const FullWidthHyphenMinus: TokenType := 42

  /** The classification table: the token type of each listed code point
      (written as its number); a code point missing from the table gets the
      zero value of the type, `None`. */
  function Lookup(c: char): TokenType
  {
    match c as int
    case 0x000D => CR
    case 0x000A => NL
    case 0x0009 => Tab
    case 0xFEFF => ZeroWidthNoBreakSpace
    case 0x0020 => Space
    case 0x1680 => OghamSpaceMark
    case 0x180E => MongolianVowelSeparator
    case 0x2000 => EnQuad
    case 0x2001 => EmQuad
    case 0x2002 => EnSpace
    case 0x2003 => EmSpace
    case 0x2004 => ThreePerEmSpace
    case 0x2005 => FourPerEmSpace
    case 0x2006 => SixPerEmSpace
    case 0x2007 => FigureSpace
    case 0x2008 => PunctuationSpace
    case 0x2009 => ThinSpace
    case 0x200A => HairSpace
    case 0x200B => ZeroWidthSpace
    case 0x205F => MediumMathematicalSpace
    case 0x3000 => IdeographicSpace
    case 0x002D => HyphenMinus
    case 0x00AD => SoftHyphen
    case 0x058A => ArmenianHyphen
    case 0x2010 => Hyphen
    case 0x2012 => FigureDash
    case 0x2013 => EnDash
    case 0x2014 => EmDash
    case 0x2015 => HorizontalBar
    case 0x2053 => SwungDash
    case 0x207B => SuperscriptMinus
    case 0x208B => SubscriptMinus
    case 0x2E3A => TwoEmDash
    case 0x2E3B => ThreeEmDash
    case 0xFE31 => PresentationFormForVerticalEmDash
    case 0xFE32 => PresentationFormForVerticalEnDash
    case 0xFE58 => SmallEmDash
    case 0xFE63 => SmallHyphenMinus
    case 0xFF0D => FullWidthHyphenMinus
    case _ => None
  }

  /** Tab and the whitespace types. */
  predicate IsSpace(t: TokenType)
  {
    Tab <= t <= IdeographicSpace
  }

  /** The dash types. */
  predicate IsHyphen(t: TokenType)
  {
    HyphenMinus <= t <= FullWidthHyphenMinus
  }

  /** The whitespace code points after which a line may be broken, as the
      package documentation lists them. */
  const SpaceCodePoints: set<int> := {
    0x0020, 0x1680, 0x180E,
    0x2000, 0x2001, 0x2002, 0x2003, 0x2004, 0x2005,
    0x2006, 0x2007, 0x2008, 0x2009, 0x200A, 0x200B,
    0x205F, 0x3000
  }

  /** The dash code points after which a line may be broken, as the package
      documentation lists them. */
  const HyphenCodePoints: set<int> := {
    0x002D, 0x00AD, 0x058A, 0x2010, 0x2012, 0x2013,
    0x2014, 0x2015, 0x2053, 0x207B, 0x208B, 0x2E3A,
    0x2E3B, 0xFE31, 0xFE32, 0xFE58, 0xFE63, 0xFF0D
  }

  /** The class of a code point as far as breaking is concerned. */
  datatype Class = TextClass | CRClass | NLClass | TabClass | SpaceClass | HyphenClass

  /** What the table holds: it yields only break types and the no-break
      space U+FEFF, never `Error`, `EOF` or `Text`, and it lists exactly the
      control characters, U+FEFF and the documented spaces and dashes. */
  lemma LookupTypes(c: char)
    ensures var r := Lookup(c);
      r == None || r == ZeroWidthNoBreakSpace || r == NL || r == CR || IsSpace(r) || IsHyphen(r)
    ensures Lookup(c) == ZeroWidthNoBreakSpace <==> c as int == 0xFEFF
    ensures Lookup(c) != None <==> c as int in {0x09, 0x0A, 0x0D, 0xFEFF} + SpaceCodePoints + HyphenCodePoints
  {
  }

  /** The break class of a code point: `TextClass` means "not a break point". */
  function BreakClass(c: char): (r: Class)
  {
    var t := Lookup(c);
    if t <= ZeroWidthNoBreakSpace then TextClass
    else if t == CR then CRClass
    else if t == NL then NLClass
    else if t == Tab then TabClass
    else if IsSpace(t) then SpaceClass
    else if IsHyphen(t) then HyphenClass
    else TextClass
  }

  /** Whether a code point continues a space run: the whitespace code points
      and, because the range check includes it, tab. */
  function InSpaceRun(c: char): (b: bool)
    ensures b <==> c == '\t' || c as int in SpaceCodePoints
  {
    IsSpace(Lookup(c))
  }

  /** Whether a code point continues a hyphen run. */
  function InHyphenRun(c: char): (b: bool)
    ensures b <==> c as int in HyphenCodePoints
  {
    IsHyphen(Lookup(c))
  }

  /** Carriage return, newline and tab each form a class of their own. */
  lemma ControlClasses(c: char)
    ensures BreakClass(c) == CRClass <==> c == '\r'
    ensures BreakClass(c) == NLClass <==> c == '\n'
    ensures BreakClass(c) == TabClass <==> c == '\t'
  {
  }

  /** The table and the range checks agree with the documented list of
      whitespace: exactly those code points are break-after spaces. */
  lemma SpaceClassIsDocumented(c: char)
    ensures BreakClass(c) == SpaceClass <==> c as int in SpaceCodePoints
  {
  }

  /** Exactly the documented dashes are break-after hyphens. */
  lemma HyphenClassIsDocumented(c: char)
    ensures BreakClass(c) == HyphenClass <==> c as int in HyphenCodePoints
  {
  }

  /** Every code point outside the table is text. */
  lemma TextClassIsTheRest(c: char)
    ensures BreakClass(c) == TextClass
        <==> c as int !in SpaceCodePoints && c as int !in HyphenCodePoints && c !in {'\r', '\n', '\t'}
  {
  }

  /** The look-alikes the package documentation calls out as never allowing a
      break are text. */
  lemma NonBreakingLookAlikes()
    ensures BreakClass('\U{00A0}') == TextClass     // no-break space
      && BreakClass('\U{202F}') == TextClass        // narrow no-break space
      && BreakClass('\U{FEFF}') == TextClass        // zero width no-break space
      && BreakClass('\U{007E}') == TextClass        // tilde
      && BreakClass('\U{2011}') == TextClass        // non-breaking hyphen
      && BreakClass('\U{2212}') == TextClass        // minus sign
      && BreakClass('\U{301C}') == TextClass        // wavy dash
      && BreakClass('\U{3030}') == TextClass        // wavy dash
      && BreakClass('\U{1806}') == TextClass        // mongolian todo hyphen
  {
  }

  /** Zero width space, soft hyphen and the superscript and subscript minus
      signs do allow a break. */
  lemma BreakingExceptions()
    ensures BreakClass('\U{200B}') == SpaceClass    // zero width space
      && BreakClass('\U{00AD}') == HyphenClass      // soft hyphen
      && BreakClass('\U{207B}') == HyphenClass      // superscript minus
      && BreakClass('\U{208B}') == HyphenClass      // subscript minus
  {
  }
}
