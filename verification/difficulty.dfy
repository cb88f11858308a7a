/** Fixture-difficulty colouring: a score becomes one of five coloured bands,
    or the neutral white style when the score is missing.

    Scores are exact reals compared against the literal cut-offs 0.2, 0.4,
    0.6 and 0.8. This abstracts from binary floating point: a score that is
    not exactly representable lands in the band of the real number it stands
    for. Scores outside [0, 1] are not rejected. */
module Difficulty {
  import opened Wrappers

  /** The five bands of the FDR key, easiest first. */
  datatype Band = DarkGreen | LightGreen | Grey | LightRed | DarkRed {

    /** The band's number in the FDR key: 1 is easiest, 5 is hardest. */
    function Index(): (n: int)
      ensures 1 <= n <= 5
    {
      match this
      case DarkGreen => 1
      case LightGreen => 2
      case Grey => 3
      case LightRed => 4
      case DarkRed => 5
    }

    /** Inclusive lower bound of the band's interval, None when unbounded. */
    function Lower(): Option<real> {
      match this
      case DarkGreen => None
      case LightGreen => Some(0.2)
      case Grey => Some(0.4)
      case LightRed => Some(0.6)
      case DarkRed => Some(0.8)
    }

    /** Exclusive upper bound of the band's interval, None when unbounded. */
    function Upper(): Option<real> {
      match this
      case DarkGreen => Some(0.2)
      case LightGreen => Some(0.4)
      case Grey => Some(0.6)
      case LightRed => Some(0.8)
      case DarkRed => None
    }

    /** The band's background colour. */
    function Colour(): string {
      match this
      case DarkGreen => "#006400"
      case LightGreen => "#01fc79"
      case Grey => "#e7e7e7"
      case LightRed => "#ff1751"
      case DarkRed => "#80082e"
    }
  }

  /** The half-open interval [Lower, Upper) of band b contains x. */
  predicate InBand(x: real, b: Band) {
    && (b.Lower().None? || b.Lower().value <= x)
    && (b.Upper().None? || x < b.Upper().value)
  }

  /** The style given to one table cell. */
  datatype CellStyle = Plain | Banded(band: Band)

  /** The cascade of `<` tests: a score equal to a cut-off fails the test
      below it and so lands in the harder band. */
  function BandOf(x: real): (b: Band)
    ensures InBand(x, b)
  {
    if x < 0.2 then DarkGreen
    else if x < 0.4 then LightGreen
    else if x < 0.6 then Grey
    else if x < 0.8 then LightRed
    else DarkRed
  }

  /** Classifies an optional score: missing gives Plain, a present score the
      unique band whose interval contains it. */
  function StyleOf(score: Option<real>): (s: CellStyle)
    ensures s.Plain? <==> score.None?
    ensures score.Some? ==> InBand(score.value, s.band)
  {
    match score
    case None => Plain
    case Some(x) => Banded(BandOf(x))
  }

  /** A band is drawn with white text; the others keep the default colour. */
  predicate WhiteText(b: Band) {
    b == DarkGreen || b == LightRed || b == DarkRed
  }

  const TextSuffix: string := "; color: white"

  /** The CSS declaration of a cell style. */
  function Css(s: CellStyle): string {
    match s
    case Plain => "background-color: white"
    case Banded(b) => "background-color: " + b.Colour() + (if WhiteText(b) then TextSuffix else "")
  }

  /** The CSS declaration names a white foreground. */
  predicate HasWhiteText(css: string) {
    |css| >= |TextSuffix| && css[|css| - |TextSuffix|..] == TextSuffix
  }

  /** The white-text suffix is present exactly when the style is a band
      drawn with white text. */
  lemma CssWhiteText(s: CellStyle)
    ensures HasWhiteText(Css(s)) <==> (s.Banded? && WhiteText(s.band))
  {
    var css := Css(s);
    if s.Banded? && WhiteText(s.band) {
      assert css == ("background-color: " + s.band.Colour()) + TextSuffix;
    } else {
      // Without the suffix the character where ';' would have to be is a letter.
      assert |css| >= |TextSuffix| ==> css[|css| - |TextSuffix|] != ';';
    }
  }

  /** The string returned for an optional score. */
  function ColourFromScore(score: Option<real>): (css: string)
    ensures score.None? ==> css == "background-color: white"
    ensures HasWhiteText(css) <==> (score.Some? && WhiteText(BandOf(score.value)))
  {
    CssWhiteText(StyleOf(score));
    Css(StyleOf(score))
  }

  /** The exact string of each band, by the interval the score lies in. */
  lemma ColourFromScoreLiterals(x: real)
    ensures x < 0.2 ==> ColourFromScore(Some(x)) == "background-color: #006400; color: white"
    ensures 0.2 <= x < 0.4 ==> ColourFromScore(Some(x)) == "background-color: #01fc79"
    ensures 0.4 <= x < 0.6 ==> ColourFromScore(Some(x)) == "background-color: #e7e7e7"
    ensures 0.6 <= x < 0.8 ==> ColourFromScore(Some(x)) == "background-color: #ff1751; color: white"
    ensures 0.8 <= x ==> ColourFromScore(Some(x)) == "background-color: #80082e; color: white"
  {
    var pre := "background-color: ";
    match BandOf(x)
    case DarkGreen => assert pre + "#006400" + TextSuffix == "background-color: #006400; color: white";
    case LightGreen => assert pre + "#01fc79" + "" == "background-color: #01fc79";
    case Grey => assert pre + "#e7e7e7" + "" == "background-color: #e7e7e7";
    case LightRed => assert pre + "#ff1751" + TextSuffix == "background-color: #ff1751; color: white";
    case DarkRed => assert pre + "#80082e" + TextSuffix == "background-color: #80082e; color: white";
  }

  // ---------------------------------------------------------------------
  // Properties of the bands.

  /** The five intervals do not overlap: a score lies in at most one band. */
  lemma BandsDisjoint(x: real, b1: Band, b2: Band)
    requires InBand(x, b1) && InBand(x, b2)
    ensures b1 == b2
  {
  }

  /** The cascade picks a band exactly when that band's interval holds the score. */
  lemma BandOfIff(x: real, b: Band)
    ensures BandOf(x) == b <==> InBand(x, b)
  {
    if InBand(x, b) {
      BandsDisjoint(x, BandOf(x), b);
    }
  }

  /** A cut-off belongs to the harder band. */
  lemma CutOffsGoToHarderBand()
    ensures BandOf(0.2) == LightGreen && BandOf(0.4) == Grey
    ensures BandOf(0.6) == LightRed && BandOf(0.8) == DarkRed
  {
  }

  /** Out-of-range scores are not rejected: negatives are easiest, anything
      from 0.8 upwards (including above 1) is hardest. */
  lemma OutOfRangeScores(x: real)
    ensures x < 0.0 ==> BandOf(x) == DarkGreen
    ensures x >= 0.8 ==> BandOf(x) == DarkRed
  {
  }

  /** A higher score never gets an easier band. */
  lemma BandMonotone(x: real, y: real)
    requires x <= y
    ensures BandOf(x).Index() <= BandOf(y).Index()
  {
  }

  /** Different styles render as different CSS, so each band is visible. */
  lemma CssInjective(s1: CellStyle, s2: CellStyle)
    requires s1 != s2
    ensures Css(s1) != Css(s2)
  {
    var i := |"background-color: "|;
    if s1.Banded? && s2.Banded? {
      assert Css(s1)[i..i + 7] == s1.band.Colour();
      assert Css(s2)[i..i + 7] == s2.band.Colour();
    } else {
      assert |Css(s1)| != |Css(s2)|;
    }
  }

  /** White text is added exactly for bands 1, 4 and 5. */
  lemma WhiteTextBands(s: CellStyle)
    ensures HasWhiteText(Css(s)) <==> (s.Banded? && s.band.Index() in {1, 4, 5})
  {
    CssWhiteText(s);
  }
}
