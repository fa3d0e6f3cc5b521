/** The layout arithmetic of the print-template generator (`create_template`
    in cards.py): language selection, the bleed / cut / safe-area geometry,
    the logo box, the font-size scaling and the 300 DPI pixel sizes. All
    lengths are in PDF points unless their name ends in `Mm`. */
module CardTemplate {
  import opened Reals

  // ---------------------------------------------------------------------
  // Units
  // ---------------------------------------------------------------------

  /** reportlab's units: an inch is 72 points, a centimetre an inch over
      2.54, a millimetre a tenth of a centimetre. */
  const Inch: real := 72.0
  const Cm: real := Inch / 2.54
  const MM: real := Cm * 0.1

  const BleedMm: real := 3.0
  const SafeMarginMm: real := 4.0
  const CornerRadiusMm: real := 5.0
  /** The text frame sits 1 mm inside the safe area. */
  const FramePaddingMm: real := 1.0

  /** reportlab's millimetre: 72/25.4 points. */
  lemma MMIsInchOver25_4()
    ensures MM == 72.0 / 25.4 && MM > 0.0
  {
  }

  // ---------------------------------------------------------------------
  // Language
  // ---------------------------------------------------------------------

  /** The eight legend texts of one language. */
  datatype Texts = Texts(
    redLabel: string, redDesc: string,
    blueLabel: string, blueDesc: string,
    greenLabel: string, greenDesc: string,
    cardHeader: string, fileHeader: string)

  const Translations: map<string, Texts> := map[
    "PL" := Texts(
      "Obszar czerwony (30%)", "Spad - zostanie odcięty.",
      "Obszar zakreskowany", "Margines techniczny - brak ważnych grafik.",
      "Obszar pusty", "Obszar bezpieczny - miejsce na Twój projekt.",
      "WYMIAR KARTY (NETTO)", "WYMIAR PLIKU (BRUTTO)"),
    "EN" := Texts(
      "Red Area (30%)", "Bleed - will be trimmed off.",
      "Hatched Area", "Unsafe area - keep text away.",
      "Empty Area", "Safe area - place design here.",
      "CARD SIZE (CUT)", "FILE SIZE (BLEED)")
  ]

  /** The template exists in exactly two languages. */
  lemma TranslationsArePolishAndEnglish()
    ensures Translations.Keys == {"PL", "EN"}
  {
  }

  function UpperChar(c: char): (u: char)
    ensures 'a' <= c <= 'z' ==> 'A' <= u <= 'Z' && u as int == c as int - 32
    ensures !('a' <= c <= 'z') ==> u == c
  {
    if 'a' <= c <= 'z' then (c as int - 32) as char else c
  }

  /** `str.upper()` on the ASCII letters. */
  function Upper(s: string): (r: string)
    ensures |r| == |s| && forall i :: 0 <= i < |s| ==> r[i] == UpperChar(s[i])
  {
    seq(|s|, i requires 0 <= i < |s| => UpperChar(s[i]))
  }

  /** Upper-casing twice is upper-casing once. */
  lemma UpperIdempotent(s: string)
    ensures Upper(Upper(s)) == Upper(s)
  {
    assert forall i :: 0 <= i < |s| ==> UpperChar(UpperChar(s[i])) == UpperChar(s[i]);
  }

  /** The tag the template is made in: the upper-cased request when it is a
      key of the translations, English otherwise. */
  function SelectLanguage(lang: string): (tag: string)
    ensures tag in Translations
    ensures Upper(lang) in Translations ==> tag == Upper(lang)
    ensures Upper(lang) !in Translations ==> tag == "EN"
  {
    var up := Upper(lang);
    if up in Translations then up else "EN"
  }

  /** Polish is chosen exactly for the requests `pl`, `pL`, `Pl` and `PL`;
      every other request, whatever its case, gives English; and the
      choice does not depend on the request's case. */
  lemma SelectLanguageIsCaseInsensitive(lang: string)
    ensures SelectLanguage(lang) == "PL" <==> lang in {"pl", "pL", "Pl", "PL"}
    ensures SelectLanguage(lang) == "EN" <==> lang !in {"pl", "pL", "Pl", "PL"}
    ensures SelectLanguage(Upper(lang)) == SelectLanguage(lang)
  {
    UpperIdempotent(lang);
    if Upper(lang) == "PL" {
      assert |lang| == 2 && lang == [lang[0], lang[1]];
      assert UpperChar(lang[0]) == 'P' && UpperChar(lang[1]) == 'L';
    }
    if lang in {"pl", "pL", "Pl", "PL"} {
      assert |lang| == 2;
      assert Upper(lang)[0] == 'P' && Upper(lang)[1] == 'L';
      assert Upper(lang) == "PL";
    }
  }

  // ---------------------------------------------------------------------
  // Geometry
  // ---------------------------------------------------------------------

  /** An axis-aligned rectangle by its lower-left corner and its size. */
  datatype Rect = Rect(x: real, y: real, w: real, h: real) {
    function Right(): real { x + w }
    function Top(): real { y + h }
  }

  /** `inner` lies `d` inside `outer` on each of the four sides. */
  predicate InsetBy(outer: Rect, inner: Rect, d: real) {
    inner.x == outer.x + d && inner.y == outer.y + d &&
    inner.Right() == outer.Right() - d && inner.Top() == outer.Top() - d
  }

  /** The page, the cut line (the card itself), the safe area and the text
      frame, and the radius of the rounded cut corners. */
  datatype Geometry = Geometry(page: Rect, cut: Rect, safe: Rect, frame: Rect, cornerRadius: real)

  function GeometryOf(widthMm: real, heightMm: real): (g: Geometry)
    ensures g.page.x == 0.0 && g.page.y == 0.0
    ensures g.cut.w == widthMm * MM && g.cut.h == heightMm * MM
    ensures InsetBy(g.page, g.cut, BleedMm * MM)
    ensures InsetBy(g.cut, g.safe, SafeMarginMm * MM)
    ensures InsetBy(g.page, g.safe, (BleedMm + SafeMarginMm) * MM)
    ensures InsetBy(g.safe, g.frame, FramePaddingMm * MM)
    ensures g.cornerRadius == CornerRadiusMm * MM
  {
    var bleed := BleedMm * MM;
    var cutW, cutH := widthMm * MM, heightMm * MM;
    var margin := SafeMarginMm * MM;
    var safe := Rect(bleed + margin, bleed + margin, cutW - 2.0 * margin, cutH - 2.0 * margin);
    Geometry(
      Rect(0.0, 0.0, cutW + 2.0 * bleed, cutH + 2.0 * bleed),
      Rect(bleed, bleed, cutW, cutH),
      safe,
      Rect(safe.x + FramePaddingMm * MM, safe.y + FramePaddingMm * MM,
           safe.w - 2.0 * FramePaddingMm * MM, safe.h - 2.0 * FramePaddingMm * MM),
      CornerRadiusMm * MM)
  }

  /** In millimetres the page is the card plus 6 mm in each direction, and
      the safe area the card less 8 mm. */
  lemma PageIsCardPlusBleed(widthMm: real, heightMm: real)
    ensures var g := GeometryOf(widthMm, heightMm);
      g.page.w / MM == widthMm + 2.0 * BleedMm && g.page.h / MM == heightMm + 2.0 * BleedMm &&
      g.safe.w / MM == widthMm - 2.0 * SafeMarginMm && g.safe.h / MM == heightMm - 2.0 * SafeMarginMm
  {
    var g := GeometryOf(widthMm, heightMm);
    MMIsInchOver25_4();
    assert g.page.w == (widthMm + 2.0 * BleedMm) * MM;
    assert g.page.h == (heightMm + 2.0 * BleedMm) * MM;
    assert g.safe.w == (widthMm - 2.0 * SafeMarginMm) * MM;
    assert g.safe.h == (heightMm - 2.0 * SafeMarginMm) * MM;
  }

  // ---------------------------------------------------------------------
  // Logo
  // ---------------------------------------------------------------------

  /** Narrow cards shrink the logo in proportion to their width below
      60 mm. */
  function LogoScaleFactor(widthMm: real): (f: real)
    ensures f * 60.0 == Min(widthMm, 60.0)
    ensures f <= 1.0
    ensures 0.0 <= widthMm ==> 0.0 <= f
  {
    if widthMm < 60.0 then widthMm / 60.0 else 1.0
  }

  /** What the search for a logo file and the image reader give: no file;
      a file the reader cannot open; a file it opens but whose size cannot
      be read; or an image of `iw` by `ih` pixels. */
  datatype LogoSource = NoLogoFile | ReaderFails | SizeFails | Image(iw: nat, ih: nat)

  /** The logo box: whether an image is drawn (the reader object exists),
      its width and height, and the height reserved above the text. */
  datatype Logo = Logo(drawsImage: bool, w: real, h: real, heightFinal: real)

  /** The logo box for a card of width `widthMm` whose safe area is `safeW`
      points wide. Without a file it is a 30 mm × 10 mm placeholder scaled by
      the factor; with a readable image it is `min(30 mm, safeW/2)` scaled by
      the factor, and keeps the image's aspect ratio. A failure after the
      reader opened the file (no size, or a zero width dividing the aspect)
      still draws the image, at size zero; a reader failure draws nothing
      but the zero-size error frame. */
  function LogoSize(src: LogoSource, widthMm: real, safeW: real): (l: Logo)
    ensures l.heightFinal == l.h
    ensures l.drawsImage <==> !src.NoLogoFile? && !src.ReaderFails?
    ensures src.NoLogoFile? ==>
      l.w == 30.0 * MM * LogoScaleFactor(widthMm) && l.h == 10.0 * MM * LogoScaleFactor(widthMm)
    ensures src.Image? && src.iw > 0 ==>
      l.w == Min(30.0 * MM, safeW * 0.5) * LogoScaleFactor(widthMm) &&
      l.h * src.iw as real == l.w * src.ih as real
    ensures src.ReaderFails? || src.SizeFails? || (src.Image? && src.iw == 0) ==>
      l.w == 0.0 && l.h == 0.0
  {
    var f := LogoScaleFactor(widthMm);
    match src
    case NoLogoFile => Logo(false, 30.0 * MM * f, 10.0 * MM * f, 10.0 * MM * f)
    case ReaderFails => Logo(false, 0.0, 0.0, 0.0)
    case SizeFails => Logo(true, 0.0, 0.0, 0.0)
    case Image(iw, ih) =>
      if iw == 0 then Logo(true, 0.0, 0.0, 0.0)
      else
        var aspect := ih as real / iw as real;
        var w := Min(30.0 * MM, safeW * 0.5) * f;
        Logo(true, w, w * aspect, w * aspect)
  }

  /** On a card of non-negative width no logo box, placeholder or image,
      is wider than 30 mm, however wide the safe area is. */
  lemma LogoIsAtMostThirtyMillimetres(src: LogoSource, widthMm: real, safeW: real)
    requires 0.0 <= widthMm
    ensures LogoSize(src, widthMm, safeW).w <= 30.0 * MM
  {
    var f := LogoScaleFactor(widthMm);
    if src.NoLogoFile? {
      ScaleDownIsSmaller(30.0 * MM, f);
      assert 30.0 * MM * f <= 30.0 * MM;
    } else if src.Image? && src.iw > 0 {
      var m := Min(30.0 * MM, safeW * 0.5);
      assert LogoSize(src, widthMm, safeW).w == m * f;
      if 0.0 <= m {
        ScaleDownIsSmaller(m, f);
      } else {
        NonPositiveStaysNonPositive(m, f);
      }
    }
  }

  /** For a card of non-negative width and a safe area `safeW` points wide
      that is not negative, a logo read from an image is never wider than
      half the safe area, nor than 30 mm. */
  lemma ImageLogoFitsSafeArea(iw: nat, ih: nat, widthMm: real, safeW: real)
    requires 0.0 <= widthMm && 0.0 <= safeW
    ensures var l := LogoSize(Image(iw, ih), widthMm, safeW);
      l.w <= safeW * 0.5 && l.w <= 30.0 * MM
  {
    var f := LogoScaleFactor(widthMm);
    var m := Min(30.0 * MM, safeW * 0.5);
    if iw > 0 {
      assert LogoSize(Image(iw, ih), widthMm, safeW).w == m * f;
      ScaleDownIsSmaller(m, f);
    }
  }

  /** The placeholder box fits across the safe area exactly on cards at
      least 16 mm wide: below 60 mm it is half the card's width, which the
      safe area (the width less 8 mm) reaches only from 16 mm on. */
  lemma PlaceholderFitsSafeAreaIff(widthMm: real, heightMm: real)
    ensures var g := GeometryOf(widthMm, heightMm);
      LogoSize(NoLogoFile, widthMm, g.safe.w).w <= g.safe.w <==> widthMm >= 16.0
  {
    var g := GeometryOf(widthMm, heightMm);
    MMIsInchOver25_4();
    assert g.safe.w == (widthMm - 8.0) * MM;
    var w := LogoSize(NoLogoFile, widthMm, g.safe.w).w;
    if widthMm < 60.0 {
      assert w == (widthMm / 2.0) * MM;
    } else {
      assert w == 30.0 * MM;
    }
  }

  /** A non-positive width stays non-positive when scaled. */
  lemma NonPositiveStaysNonPositive(m: real, f: real)
    requires m <= 0.0 && 0.0 <= f
    ensures m * f <= 0.0
  {
    assert 0.0 <= (-m) * f;
  }

  /** Scaling by a factor of at most 1 never enlarges a width. */
  lemma ScaleDownIsSmaller(m: real, f: real)
    requires 0.0 <= m && 0.0 <= f <= 1.0
    ensures m * f <= m
  {
    assert m * (1.0 - f) >= 0.0;
  }

  /** `pos_x, pos_y`: the logo box is centred horizontally in the safe area
      and its top edge lies on the top of the safe area. */
  function LogoPosition(safe: Rect, w: real, h: real): (p: (real, real))
    ensures p.0 - safe.x == safe.Right() - (p.0 + w)
    ensures p.1 + h == safe.Top()
  {
    (safe.x + (safe.w - w) / 2.0, safe.y + safe.h - h)
  }

  // ---------------------------------------------------------------------
  // Font sizes
  // ---------------------------------------------------------------------

  /** The sizes of the legend, the two headers and the data lines. */
  datatype FontSizes = FontSizes(desc: real, header: real, data: real)

  /** The base sizes 7/8/8 stand for cards at least 100 mm in both
      directions. From 60 mm to 100 mm the smaller side scales them down,
      never under the floors 4.5/5/5. Below 60 mm the source scales by a
      further 0.8, but 7·0.6·0.8 and 8·0.6·0.8 already lie under the floors
      3.5/4/4, so every card under 60 mm gets exactly those floors. */
  function ScaledFontSizes(widthMm: real, heightMm: real): (f: FontSizes)
    ensures f.desc <= 7.0 && f.header <= 8.0 && f.data <= 8.0
    ensures f.desc >= 3.5 && f.header >= 4.0 && f.data >= 4.0
    ensures Min(widthMm, heightMm) >= 60.0 ==> f.desc >= 4.5 && f.header >= 5.0 && f.data >= 5.0
    ensures Min(widthMm, heightMm) >= 100.0 <==> f == FontSizes(7.0, 8.0, 8.0)
    ensures Min(widthMm, heightMm) < 60.0 ==> f == FontSizes(3.5, 4.0, 4.0)
    ensures f.header == f.data
  {
    var minDim := Min(widthMm, heightMm);
    if minDim < 100.0 then
      var scale := minDim / 100.0;
      if minDim < 60.0 then
        FontSizes(Max(3.5, 7.0 * scale * 0.8), Max(4.0, 8.0 * scale * 0.8), Max(4.0, 8.0 * scale * 0.8))
      else
        FontSizes(Max(4.5, 7.0 * scale), Max(5.0, 8.0 * scale), Max(5.0, 8.0 * scale))
    else FontSizes(7.0, 8.0, 8.0)
  }

  /** A card whose smaller side is not shorter never gets smaller text,
      including across the jump from the floors 3.5/4/4 to 4.5/5/5 at
      60 mm; at 100 mm the sizes are continuous. */
  lemma FontSizesAreMonotone(w1: real, h1: real, w2: real, h2: real)
    requires Min(w1, h1) <= Min(w2, h2)
    ensures var a, b := ScaledFontSizes(w1, h1), ScaledFontSizes(w2, h2);
      a.desc <= b.desc && a.header <= b.header && a.data <= b.data
  {
  }

  // ---------------------------------------------------------------------
  // Pixel sizes at 300 DPI
  // ---------------------------------------------------------------------

  /** Python's `int()` on a float: truncation toward zero. */
  function Trunc(x: real): (n: int)
    ensures 0.0 <= x ==> n as real <= x < n as real + 1.0
    ensures x < 0.0 ==> n as real - 1.0 < x <= n as real
  {
    if 0.0 <= x then x.Floor else -((-x).Floor)
  }

  /** Pixels of `lengthMm` at 300 dots per inch. */
  function PixelsAt300Dpi(lengthMm: real): (px: int)
    ensures 0.0 <= lengthMm ==> 0 <= px
    ensures 0.0 <= lengthMm ==> px as real <= lengthMm / 25.4 * 300.0 < px as real + 1.0
  {
    Trunc(lengthMm / 25.4 * 300.0)
  }

  /** The cut size and the page size in pixels. */
  datatype Pixels = Pixels(cutW: int, cutH: int, pageW: int, pageH: int)

  /** The card and the page in pixels. The page is measured back in
      millimetres from its size in points, which gives the card plus the
      bleed on both sides, so a card of non-negative size has a page 70 or
      71 pixels larger on each axis. */
  function PixelSizes(widthMm: real, heightMm: real): (p: Pixels)
    ensures p.cutW == PixelsAt300Dpi(widthMm) && p.cutH == PixelsAt300Dpi(heightMm)
    ensures p.pageW == PixelsAt300Dpi(widthMm + 2.0 * BleedMm)
    ensures p.pageH == PixelsAt300Dpi(heightMm + 2.0 * BleedMm)
    ensures 0.0 <= widthMm ==> 70 <= p.pageW - p.cutW <= 71
    ensures 0.0 <= heightMm ==> 70 <= p.pageH - p.cutH <= 71
  {
    var g := GeometryOf(widthMm, heightMm);
    PageIsCardPlusBleed(widthMm, heightMm);
    SixMillimetresAreSeventyPixels(widthMm);
    SixMillimetresAreSeventyPixels(heightMm);
    Pixels(PixelsAt300Dpi(widthMm), PixelsAt300Dpi(heightMm),
           PixelsAt300Dpi(g.page.w / MM), PixelsAt300Dpi(g.page.h / MM))
  }

  /** Adding 6 mm (70.87 pixels at 300 DPI) adds 70 or 71 whole pixels. */
  lemma {:induction false} SixMillimetresAreSeventyPixels(lengthMm: real)
    ensures 0.0 <= lengthMm ==> 70 <= PixelsAt300Dpi(lengthMm + 6.0) - PixelsAt300Dpi(lengthMm) <= 71
  {
    var a := lengthMm / 25.4 * 300.0;
    var b := (lengthMm + 6.0) / 25.4 * 300.0;
    assert b == a + 6.0 / 25.4 * 300.0;
    assert 70.0 < 6.0 / 25.4 * 300.0 < 71.0;
  }

  // ---------------------------------------------------------------------
  // The whole layout
  // ---------------------------------------------------------------------

  /** Everything `create_template` computes before drawing. */
  datatype Template = Template(
    lang: string, texts: Texts, geometry: Geometry, logo: Logo,
    logoX: real, logoY: real, fonts: FontSizes, pixels: Pixels)

  /** The layout for a card of `widthMm` × `heightMm`, the requested
      language and the logo found. */
  function TemplateOf(widthMm: real, heightMm: real, lang: string, src: LogoSource): (t: Template)
    ensures t.lang == SelectLanguage(lang) && t.texts == Translations[t.lang]
    ensures t.geometry == GeometryOf(widthMm, heightMm)
    ensures t.logo == LogoSize(src, widthMm, t.geometry.safe.w)
    ensures t.logoX - t.geometry.safe.x == t.geometry.safe.Right() - (t.logoX + t.logo.w)
    ensures t.logoY + t.logo.h == t.geometry.safe.Top()
    ensures t.fonts == ScaledFontSizes(widthMm, heightMm)
    ensures t.pixels == PixelSizes(widthMm, heightMm)
  {
    var tag := SelectLanguage(lang);
    var g := GeometryOf(widthMm, heightMm);
    var logo := LogoSize(src, widthMm, g.safe.w);
    var pos := LogoPosition(g.safe, logo.w, logo.h);
    Template(tag, Translations[tag], g, logo, pos.0, pos.1,
             ScaledFontSizes(widthMm, heightMm), PixelSizes(widthMm, heightMm))
  }

  /** `lang = lang.upper()`, then English for a tag with no translations. */
  method ChooseLanguage(lang: string) returns (tag: string)
    ensures tag == SelectLanguage(lang)
  {
    tag := Upper(lang);
    if tag !in Translations {
      tag := "EN";
    }
  }

  /** The scale factor and the logo box, as locals that the branches for a
      missing file, a failing reader and a readable image reassign. */
  method SizeLogo(src: LogoSource, widthMm: real, safeW: real) returns (logo: Logo)
    ensures logo == LogoSize(src, widthMm, safeW)
  {
    var logoScaleFactor := 1.0;
    if widthMm < 60.0 {
      logoScaleFactor := widthMm / 60.0;
    }
    assert logoScaleFactor == LogoScaleFactor(widthMm);
    var drawsImage := false;
    var targetW, targetH, logoHeightFinal := 0.0, 0.0, 0.0;
    match src {
      case NoLogoFile =>
        targetW := 30.0 * MM * logoScaleFactor;
        targetH := 10.0 * MM * logoScaleFactor;
        logoHeightFinal := targetH;
      case ReaderFails =>
      case SizeFails =>
        drawsImage := true;
      case Image(iw, ih) =>
        drawsImage := true;
        if iw != 0 {
          var aspect := ih as real / iw as real;
          targetW := Min(30.0 * MM, safeW * 0.5) * logoScaleFactor;
          targetH := targetW * aspect;
          logoHeightFinal := targetH;
        }
    }
    logo := Logo(drawsImage, targetW, targetH, logoHeightFinal);
  }

  /** The base font sizes, as locals that the two scaling branches
      reassign. */
  method ScaleFonts(widthMm: real, heightMm: real) returns (f: FontSizes)
    ensures f == ScaledFontSizes(widthMm, heightMm)
  {
    var baseDesc, baseHeader, baseData := 7.0, 8.0, 8.0;
    var minDim := Min(widthMm, heightMm);
    if minDim < 100.0 {
      var scale := minDim / 100.0;
      if minDim < 60.0 {
        baseDesc := Max(3.5, baseDesc * scale * 0.8);
        baseHeader := Max(4.0, baseHeader * scale * 0.8);
        baseData := Max(4.0, baseData * scale * 0.8);
      } else {
        baseDesc := Max(4.5, baseDesc * scale);
        baseHeader := Max(5.0, baseHeader * scale);
        baseData := Max(5.0, baseData * scale);
      }
    }
    f := FontSizes(baseDesc, baseHeader, baseData);
  }

  /** `create_template` up to the drawing calls. */
  method CreateTemplate(widthMm: real, heightMm: real, lang: string, src: LogoSource)
    returns (t: Template)
    ensures t == TemplateOf(widthMm, heightMm, lang, src)
  {
    var tag := ChooseLanguage(lang);
    var g := GeometryOf(widthMm, heightMm);
    var logo := SizeLogo(src, widthMm, g.safe.w);
    var fonts := ScaleFonts(widthMm, heightMm);
    var pixels := PixelSizes(widthMm, heightMm);
    var posX := g.safe.x + (g.safe.w - logo.w) / 2.0;
    var posY := g.safe.y + g.safe.h - logo.h;
    t := Template(tag, Translations[tag], g, logo, posX, posY, fonts, pixels);
  }
}
