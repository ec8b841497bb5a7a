# Platform style of the Qt wallet GUI, modelled in Dafny

This project models `src/qt/platformstyle.cpp`, the part of the desktop GUI that
chooses per-platform conventions and recolours single-colour icons:

- **Platform table and lookup** (`platform_style.dfy`, module
  `Platform`). There is a fixed, ordered table of three platforms: `"macosx"`,
  `"windows"` and `"other"`. Each entry holds three flags: images on push
  buttons, colorize icons, and extra spacing. `PlatformStyle.Instantiate`
  scans the table with a loop. It builds a style from the first entry whose
  identifier equals the argument exactly. If no entry matches, it returns null.
- **Style construction** (`PlatformStyle` constructor). The custom theme forces
  images on buttons and icon colouring, and sets both colours to the accent
  (12,175,165). Without the theme, the flags are kept. The tint is whichever of
  the palette's highlight and highlighted-text colours has lightness closer to
  the window text's (ties go to highlighted text); it is used only when icons
  are coloured, otherwise the tint stays black. The text colour is the window
  text's colour.
- **Recolouring** (`single_color.dfy`, module `SingleColor`).
  `MakeSingleColorImage` rewrites an `array2` of ARGB pixels in place with the
  source's two count-down loops. Every pixel keeps its alpha. Under the default
  theme its RGB becomes the given colour. Under the custom theme its RGB comes
  from a diagonal gradient. `Recoloured` is the same transform on image values.
  The style's accessors `SingleColorImage`, `SingleColorIcon` and
  `TextColorIcon` are conditionals over it.
- **Colours and pixels** (`colors.dfy`, module `Colors`): 8-bit channels, RGB
  colours, (alpha, red, green, blue) pixels and the fixed colours of the theme.

The process-wide inputs of the original are parameters. The theme is a value
`Theme`: `Default`, or `Custom(blend)` when the custom theme is set. The
palette is a value `Palette` holding each colour with its lightness.

The custom theme's gradient is modelled as follows. The branch (`y < x` on raw
coordinates) is exact. The end colour it blends towards is exact. The blend
factor `(x/width - y/height) * 1.25` (or its mirror) is exact, in real
arithmetic. Only the floating-point mixing of two colours is the parameter
`blend`.

Two readings of this component that the code does not bear out:

- `"other"` is not a fallback. An unlisted identifier such as `"linux"` finds
  nothing, and `Instantiate` returns null (`LookupIsExact`).
- The gradient is not always exactly its middle colour on the diagonal
  `x == y`. The diagonal always takes the left-hand branch. Its factor is zero
  only for square images or at `x == 0` (`DiagonalBlendFactor`). In other
  images it is non-zero, and it can be negative (`BlendFactorUnclamped`).

## Model

| member | source | states |
|---|---|---|
| `Platform.FirstMatch` | src/qt/platformstyle.cpp:180-183 | the index found is the first entry whose identifier equals the argument; no earlier entry matches; it is the table length when nothing matches |
| `Platform.Lookup` | src/qt/platformstyle.cpp:178-191 | the lookup fails exactly when no table entry has the identifier; a success is a table entry with exactly that identifier |
| `Platform.KnownPlatformTraits` | src/qt/platformstyle.cpp:26-31 | "macosx" gives (false, true, true), "windows" (true, false, false), "other" (true, true, false) |
| `Platform.LookupIsExact` | src/qt/platformstyle.cpp:26-31 | the lookup succeeds if and only if the identifier is one of the three; there is no fallback to "other" |
| `Platform.IconTint` | src/qt/platformstyle.cpp:130-140 | the tint is one of the two highlight colours; its lightness gap to the window text is no larger than either one's; ties give the highlighted-text colour |
| `Platform.PlatformStyle.constructor` | src/qt/platformstyle.cpp:111-145 | name and extra spacing are the arguments; the custom theme forces both flags on and both colours to (12,175,165); otherwise the flags are kept, the tint is the palette's closest highlight colour when icons are coloured and black when not, and the text colour is the window text's |
| `Platform.PlatformStyle.Instantiate` | src/qt/platformstyle.cpp:178-192 | returns null exactly when the lookup fails; otherwise a style built by the construction rule from the first matching entry's name and flags |
| `Platform.PlatformStyle.SingleColorImage` | src/qt/platformstyle.cpp:147-152 | returns the image unchanged when the style does not colour icons; otherwise recolours it with the tint, which keeps the alpha mask and, under the default theme, paints every pixel with the tint |
| `Platform.PlatformStyle.SingleColorIconFromFile` | src/qt/platformstyle.cpp:154-159 | a one-image icon: the file's image unchanged when the style does not colour icons, recoloured with the tint otherwise |
| `Platform.PlatformStyle.SingleColorIcon` | src/qt/platformstyle.cpp:161-166 | returns the icon unchanged when the style does not colour icons; otherwise every size is recoloured with the tint, with its alpha mask kept |
| `Platform.PlatformStyle.TextColorIconFromFile` | src/qt/platformstyle.cpp:168-171 | the file's image, recoloured with the text colour whether or not the style colours icons |
| `Platform.PlatformStyle.TextColorIcon` | src/qt/platformstyle.cpp:173-176 | every size of the icon equals that size recoloured with the text colour, whatever the colour flag and in both themes; masks kept, and painted with the text colour under the default theme |
| `Platform.CustomThemeAlwaysColorizes` | src/qt/platformstyle.cpp:119-126 | a style built under the custom theme recolours images and text icons with the accent colour, whatever its platform entry says |
| `SingleColor.Recoloured` | src/qt/platformstyle.cpp:37-81 | the result has the input's size and every pixel's alpha; under the default theme every pixel has the given RGB; under the custom theme each pixel has the gradient colour of its position |
| `SingleColor.MakeSingleColorImage` | src/qt/platformstyle.cpp:37-81 | the array afterwards holds the recoloured image of what it held before (same size, alpha kept); the loops write every (x, y) exactly once and nothing outside the image |
| `SingleColor.ColorizeIcon` | src/qt/platformstyle.cpp:84-94 | the icon keeps its number of sizes; each size is recoloured, keeping its mask, and under the default theme it is painted with the given colour |
| `SingleColor.FlatRecolourIdempotent` | src/qt/platformstyle.cpp:72-80 | flat recolouring twice with the same colour equals recolouring once |
| `SingleColor.OpaqueImageBecomesSolid` | src/qt/platformstyle.cpp:78 | a fully opaque image recoloured flat has every pixel equal to (255, colour) |
| `SingleColor.RecolourSeesOnlyAlpha` | src/qt/platformstyle.cpp:37-81 | two images of the same size and alpha mask recolour to the same image, in both themes |
| `SingleColor.CustomThemeIgnoresColorbase` | src/qt/platformstyle.cpp:39-70 | under the custom theme the result does not depend on the colour passed in |
| `SingleColor.DiagonalBlendFactor` | src/qt/platformstyle.cpp:53-61 | on the diagonal the gradient blends towards its left colour, with factor zero exactly when the image is square or x is 0 |
| `SingleColor.SquareBlendFactorRange` | src/qt/platformstyle.cpp:53-61 | in a square image the blend factor lies in [0, 1.25) |
| `SingleColor.BlendFactorUnclamped` | src/qt/platformstyle.cpp:54-61 | the factor is not confined to [0, 1]: it is 1.125 at (9, 0) of a 10x10 image and -0.3125 at (1, 1) of a 2x4 image |

## Left out

- Loading an image or icon from a file name is not modelled. A file is given as the image it loads, so `ColorizeImage` (lines 96-101) is `Recoloured` applied to that image, and `ColorizeIcon` of a file name (lines 103-106) is a one-image icon.
- The conversion to 32-bit ARGB (`convertToFormat`) is not modelled: pixels are already (alpha, red, green, blue) tuples. The bit packing done by `qRgba` and `qAlpha` is also left out.
- The `QPixmap`/`QIcon` conversions are not modelled. The iteration over `availableSizes()` is modelled only as an icon being a sequence of images, one per size, recoloured element by element.
- The gradient's colour mixing is not modelled. It uses floating-point products and a factor that can leave [0, 1], and the colour class's handling of out-of-range channels is not visible. It is the abstract parameter `blend`. The blend factor is exact in real arithmetic; its rounding to single precision is not modelled.
- The palette reads (`QApplication::palette()`), `QColor::lightness()` and `GUIUtil::customThemeIsSet()` are process-wide or library state. They are parameters: a `Palette` whose colours carry their lightness, and a `Theme`.
- Platform.PlatformStyle.Instantiate: does not state that the returned style is newly allocated and owned by the caller; ownership of the allocated object is not modelled.
