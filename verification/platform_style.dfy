/**
 * Platform-dependent styling of the desktop GUI.
 *
 * A fixed table gives each known platform its conventions: whether push
 * buttons show images, whether single-colour icons are tinted, and whether
 * the transaction view uses extra spacing.  A style is built from one table
 * entry; the custom theme overrides the entry, and otherwise the tint is the
 * one of the two highlight colours of the palette whose lightness is closer to
 * that of the window text.  The style then hands out recoloured images and
 * icons.
 *
 * The process-wide inputs of the original are parameters here: the theme
 * (whether the custom theme is set) and the palette, with the lightness of
 * each of its colours.
 */
module Platform {
  import opened Colors
  import opened SingleColor

  datatype Option<T> = None | Some(value: T)

  /** The conventions of one platform, as listed in the table. */
  datatype PlatformTraits = PlatformTraits(
    platformId: string,
    imagesOnButtons: bool,   // push buttons carry an image beside their label
    colorizeIcons: bool,     // monochrome icons are tinted to match the palette
    useExtraSpacing: bool)   // the transaction list is laid out with wider gaps

  /** The known platforms, in the order they are searched. */
  const PlatformStyles: seq<PlatformTraits> := [
    PlatformTraits("macosx", false, true, true),
    PlatformTraits("windows", true, false, false),
    // the entry meant for platforms not listed above
    PlatformTraits("other", true, true, false)
  ]

  /** The index of the first entry of `table` for `id`, or |table| when there is none. */
  function FirstMatch(table: seq<PlatformTraits>, id: string): (k: nat)
    ensures k <= |table|
    ensures k < |table| ==> table[k].platformId == id
    ensures forall j | 0 <= j < k :: table[j].platformId != id
  {
    if table == [] then 0
    else if table[0].platformId == id then 0
    else 1 + FirstMatch(table[1..], id)
  }

  /** The traits of the first entry of the platform table for `id`, if any. */
  function Lookup(id: string): (r: Option<PlatformTraits>)
    ensures r.None? <==> forall i | 0 <= i < |PlatformStyles| :: PlatformStyles[i].platformId != id
    ensures r.Some? ==> r.value in PlatformStyles && r.value.platformId == id
  {
    var k := FirstMatch(PlatformStyles, id);
    if k < |PlatformStyles| then Some(PlatformStyles[k]) else None
  }

  /** The table fixes the traits of the three known platforms. */
  lemma KnownPlatformTraits()
    ensures Lookup("macosx") == Some(PlatformTraits("macosx", false, true, true))
    ensures Lookup("windows") == Some(PlatformTraits("windows", true, false, false))
    ensures Lookup("other") == Some(PlatformTraits("other", true, true, false))
  {
  }

  /** Only the three identifiers are found; nothing falls back to "other". */
  lemma LookupIsExact(id: string)
    ensures Lookup(id).Some? <==> (id == "macosx" || id == "windows" || id == "other")
  {
  }

  /** A palette colour together with its lightness. */
  datatype Shade = Shade(color: Color, lightness: Channel)

  /** The palette colours the style reads. */
  datatype Palette = Palette(highlight: Shade, highlightedText: Shade, windowText: Shade)

  /** How far the lightness of `s` is from that of `text`. */
  function LightnessGap(s: Shade, text: Shade): nat {
    if s.lightness >= text.lightness then (s.lightness - text.lightness) as nat
    else (text.lightness - s.lightness) as nat
  }

  /**
   * The highlight colour whose lightness is closest to the window text's;
   * on a tie, the highlighted-text colour.
   */
  function IconTint(p: Palette): (s: Shade)
    ensures s == p.highlight || s == p.highlightedText
    ensures LightnessGap(s, p.windowText) <= LightnessGap(p.highlight, p.windowText)
    ensures LightnessGap(s, p.windowText) <= LightnessGap(p.highlightedText, p.windowText)
    ensures LightnessGap(p.highlight, p.windowText) == LightnessGap(p.highlightedText, p.windowText) ==> s == p.highlightedText
  {
    if LightnessGap(p.highlight, p.windowText) < LightnessGap(p.highlightedText, p.windowText) then p.highlight
    else p.highlightedText
  }

  /** A style: the platform's conventions and the two colours icons are painted with. */
  class PlatformStyle {
    const name: string
    const imagesOnButtons: bool
    const colorizeIcons: bool
    const useExtraSpacing: bool
    const singleColor: Color
    const textColor: Color

    /**
     * The construction rule: the custom theme forces images on buttons and
     * icon colouring and paints with its accent colour; otherwise the flags
     * are the arguments, the tint comes from the palette when icons are
     * coloured (black when not), and text colour is the window text's.
     */
    predicate BuiltFrom(name: string, imagesOnButtons: bool, colorizeIcons: bool, useExtraSpacing: bool,
                        theme: Theme, palette: Palette)
    {
      && this.name == name
      && this.useExtraSpacing == useExtraSpacing
      && (theme.Custom? ==>
            && this.imagesOnButtons && this.colorizeIcons
            && singleColor == ThemeAccent && textColor == ThemeAccent)
      && (theme.Default? ==>
            && this.imagesOnButtons == imagesOnButtons && this.colorizeIcons == colorizeIcons
            && singleColor == (if colorizeIcons then IconTint(palette).color else Black)
            && textColor == palette.windowText.color)
    }

    constructor (name: string, imagesOnButtons: bool, colorizeIcons: bool, useExtraSpacing: bool,
                 theme: Theme, palette: Palette)
      ensures BuiltFrom(name, imagesOnButtons, colorizeIcons, useExtraSpacing, theme, palette)
    {
      this.name := name;
      this.imagesOnButtons := imagesOnButtons;
      this.colorizeIcons := colorizeIcons;
      this.useExtraSpacing := useExtraSpacing;
      singleColor := Black;
      textColor := Black;
      if theme.Custom? {
        this.imagesOnButtons := true;
        this.colorizeIcons := true;
        singleColor := ThemeAccent;
        textColor := ThemeAccent;
      } else {
        if colorizeIcons {
          singleColor := IconTint(palette).color;
        }
        textColor := palette.windowText.color;
      }
    }

    /** The image loaded from a file, recoloured with the tint when this style colours icons. */
    function SingleColorImage(file: Image, theme: Theme): (r: Image)
      requires file.Valid()
      ensures r.Valid() && SameMask(file, r)
      ensures !colorizeIcons ==> r == file
      ensures colorizeIcons ==> r == Recoloured(file, singleColor, theme)
      ensures colorizeIcons && theme.Default? ==> PaintedWith(r, singleColor)
    {
      if !colorizeIcons then file else Recoloured(file, singleColor, theme)
    }

    /** The icon made from an image file, recoloured with the tint when this style colours icons. */
    function SingleColorIconFromFile(file: Image, theme: Theme): (r: Icon)
      requires file.Valid()
      ensures r.Valid() && |r.images| == 1 && SameMask(file, r.images[0])
      ensures !colorizeIcons ==> r.images[0] == file
      ensures colorizeIcons ==> r.images[0] == Recoloured(file, singleColor, theme)
      ensures colorizeIcons && theme.Default? ==> PaintedWith(r.images[0], singleColor)
    {
      if !colorizeIcons then Icon([file]) else Icon([Recoloured(file, singleColor, theme)])
    }

    /** An icon, recoloured size by size with the tint when this style colours icons. */
    function SingleColorIcon(icon: Icon, theme: Theme): (r: Icon)
      requires icon.Valid()
      ensures r.Valid() && |r.images| == |icon.images|
      ensures forall i | 0 <= i < |icon.images| :: SameMask(icon.images[i], r.images[i])
      ensures !colorizeIcons ==> r == icon
      ensures colorizeIcons ==> forall i | 0 <= i < |icon.images| ::
        r.images[i] == Recoloured(icon.images[i], singleColor, theme)
    {
      if !colorizeIcons then icon else ColorizeIcon(icon, singleColor, theme)
    }

    /** The icon made from an image file, always recoloured with the text colour. */
    function TextColorIconFromFile(file: Image, theme: Theme): (r: Icon)
      requires file.Valid()
      ensures r.Valid() && |r.images| == 1 && SameMask(file, r.images[0])
      ensures r.images[0] == Recoloured(file, textColor, theme)
      ensures theme.Default? ==> PaintedWith(r.images[0], textColor)
    {
      Icon([Recoloured(file, textColor, theme)])
    }

    /** An icon, always recoloured size by size with the text colour. */
    function TextColorIcon(icon: Icon, theme: Theme): (r: Icon)
      requires icon.Valid()
      ensures r.Valid() && |r.images| == |icon.images|
      ensures forall i | 0 <= i < |icon.images| :: SameMask(icon.images[i], r.images[i])
      ensures theme.Default? ==> forall i | 0 <= i < |icon.images| :: PaintedWith(r.images[i], textColor)
      ensures forall i | 0 <= i < |icon.images| :: r.images[i] == Recoloured(icon.images[i], textColor, theme)
    {
      ColorizeIcon(icon, textColor, theme)
    }

    /**
     * The style of the first table entry for `platformId`, or null when the
     * table has none.
     */
    static method Instantiate(platformId: string, theme: Theme, palette: Palette) returns (style: PlatformStyle?)
      ensures style == null <==> Lookup(platformId).None?
      ensures style != null ==>
        var t := Lookup(platformId).value;
        style.BuiltFrom(t.platformId, t.imagesOnButtons, t.colorizeIcons, t.useExtraSpacing, theme, palette)
    {
      var x := 0;
      while x < |PlatformStyles|
        invariant 0 <= x <= |PlatformStyles|
        invariant forall j | 0 <= j < x :: PlatformStyles[j].platformId != platformId
      {
        var entry := PlatformStyles[x];
        if platformId == entry.platformId {
          style := new PlatformStyle(entry.platformId, entry.imagesOnButtons, entry.colorizeIcons,
                                     entry.useExtraSpacing, theme, palette);
          return;
        }
        x := x + 1;
      }
      style := null;
    }
  }

  /** Under the custom theme every style colours its images, whatever its platform says, with the accent colour. */
  lemma CustomThemeAlwaysColorizes(style: PlatformStyle, traits: PlatformTraits, blend: Blender, palette: Palette, file: Image)
    requires file.Valid()
    requires style.BuiltFrom(traits.platformId, traits.imagesOnButtons, traits.colorizeIcons, traits.useExtraSpacing,
                             Custom(blend), palette)
    ensures style.SingleColorImage(file, Custom(blend)) == Recoloured(file, ThemeAccent, Custom(blend))
    ensures style.TextColorIconFromFile(file, Custom(blend)) == Icon([Recoloured(file, ThemeAccent, Custom(blend))])
  {
  }
}
