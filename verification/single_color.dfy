/**
 * Recolouring of single-colour images and icons.
 *
 * An image is a width x height grid of ARGB pixels addressed as (x, y), x the
 * column.  Recolouring keeps every pixel's alpha, so the silhouette of the
 * image survives, and replaces its RGB: with one flat colour under the default
 * theme, with a diagonal gradient between fixed accent colours under the
 * custom theme.  The in-place routine works on an `array2`; the accessors of
 * the style work on image values, and the two are tied by `Recoloured`.
 */
module SingleColor {
  import opened Colors

  /**
   * The floating-point arithmetic that mixes two colours by a factor r,
   * channel by channel `a * (1 - r) + b * r`, and turns the result back into a
   * colour.  Factors outside [0, 1] occur and are not clamped, and what the
   * colour class then does is not visible here, so it stays a parameter.
   */
  type Blender = (Color, Color, real) -> Color

  /** Whether the custom theme is active; under it, how gradient colours are mixed. */
  datatype Theme = Default | Custom(blend: Blender)

  /** An image: `columns[x][y]` is the pixel at column x, row y. */
  datatype Image = Image(width: nat, height: nat, columns: seq<seq<Pixel>>)
  {
    predicate Valid() {
      |columns| == width && forall x | 0 <= x < width :: |columns[x]| == height
    }

    function At(x: nat, y: nat): Pixel
      requires Valid() && x < width && y < height
    {
      columns[x][y]
    }
  }

  /** An icon: one image per size it is available in. */
  datatype Icon = Icon(images: seq<Image>)
  {
    predicate Valid() {
      forall i | 0 <= i < |images| :: images[i].Valid()
    }
  }

  /** `dst` has the size of `src` and, pixel by pixel, the alpha of `src`. */
  predicate SameMask(src: Image, dst: Image)
    requires src.Valid() && dst.Valid()
  {
    && dst.width == src.width && dst.height == src.height
    && forall x: nat, y: nat | x < src.width && y < src.height :: dst.At(x, y).alpha == src.At(x, y).alpha
  }

  /** Every pixel of `img` has the RGB of `c`. */
  predicate PaintedWith(img: Image, c: Color)
    requires img.Valid()
  {
    forall x: nat, y: nat | x < img.width && y < img.height :: img.At(x, y).Rgb() == c
  }

  /**
   * The gradient's blend factor at (x, y): the difference of the normalised
   * coordinates, scaled by 1.25.  The branch is chosen on the raw coordinates.
   * Computed exactly; the source rounds it to single precision.
   */
  function BlendFactor(x: nat, y: nat, width: nat, height: nat): real
    requires x < width && y < height
  {
    if y < x then (x as real / width as real - y as real / height as real) * 1.25
    else (y as real / height as real - x as real / width as real) * 1.25
  }

  /** The colour the gradient moves towards from its middle colour at (x, y). */
  function GradientEnd(x: nat, y: nat): Color {
    if y < x then GradientRight else GradientLeft
  }

  /** The colour the custom theme gives the pixel at (x, y). */
  function GradientColor(x: nat, y: nat, width: nat, height: nat, blend: Blender): Color
    requires x < width && y < height
  {
    blend(GradientMid, GradientEnd(x, y), BlendFactor(x, y, width, height))
  }

  /** What recolouring writes at (x, y) when the pixel there was `p`. */
  function ShadedPixel(p: Pixel, x: nat, y: nat, width: nat, height: nat, colorbase: Color, theme: Theme): Pixel
    requires x < width && y < height
  {
    match theme
    case Custom(blend) => WithAlpha(GradientColor(x, y, width, height, blend), p.alpha)
    case Default => WithAlpha(colorbase, p.alpha)
  }

  /** The image that recolouring `img` with `colorbase` under `theme` yields. */
  function Recoloured(img: Image, colorbase: Color, theme: Theme): (r: Image)
    requires img.Valid()
    ensures r.Valid() && SameMask(img, r)
    ensures theme.Default? ==> PaintedWith(r, colorbase)
    ensures theme.Custom? ==>
      forall x: nat, y: nat | x < img.width && y < img.height ::
        r.At(x, y).Rgb() == GradientColor(x, y, img.width, img.height, theme.blend)
  {
    Image(img.width, img.height,
      seq(img.width, x requires 0 <= x < img.width =>
        seq(img.height, y requires 0 <= y < img.height =>
          ShadedPixel(img.columns[x][y], x, y, img.width, img.height, colorbase, theme))))
  }

  /** The contents of a pixel array as an image value. */
  function Snapshot(a: array2<Pixel>): (img: Image)
    reads a
    ensures img.Valid() && img.width == a.Length0 && img.height == a.Length1
    ensures forall x: nat, y: nat | x < a.Length0 && y < a.Length1 :: img.At(x, y) == a[x, y]
  {
    Image(a.Length0, a.Length1,
      seq(a.Length0, x requires 0 <= x < a.Length0 reads a =>
        seq(a.Length1, y requires 0 <= y < a.Length1 reads a => a[x, y])))
  }

  /**
   * Recolours the ARGB image `img` in place, column by column from the last
   * one, and within a column row by row from the last one.  `visits` records
   * the coordinates the loops write, each as often as it is written.
   */
  method MakeSingleColorImage(img: array2<Pixel>, colorbase: Color, theme: Theme)
    returns (ghost visits: multiset<(nat, nat)>)
    modifies img
    ensures Snapshot(img) == Recoloured(old(Snapshot(img)), colorbase, theme)
    ensures forall i: nat, j: nat | i < img.Length0 && j < img.Length1 :: visits[(i, j)] == 1
    ensures forall p | p in visits :: p.0 < img.Length0 && p.1 < img.Length1
  {
    ghost var before := Snapshot(img);
    visits := multiset{};
    var width, height := img.Length0, img.Length1;
    var x := width;
    while x > 0
      invariant 0 <= x <= width
      invariant forall i, j | x <= i < width && 0 <= j < height ::
        img[i, j] == ShadedPixel(before.At(i, j), i, j, width, height, colorbase, theme)
      invariant forall i, j | 0 <= i < x && 0 <= j < height :: img[i, j] == before.At(i, j)
      invariant forall i: nat, j: nat | i < width && j < height :: visits[(i, j)] == if x <= i then 1 else 0
      invariant forall p | p in visits :: x <= p.0 < width && p.1 < height
    {
      x := x - 1;
      var y := height;
      while y > 0
        invariant 0 <= y <= height
        invariant forall i, j | x < i < width && 0 <= j < height ::
          img[i, j] == ShadedPixel(before.At(i, j), i, j, width, height, colorbase, theme)
        invariant forall j | y <= j < height ::
          img[x, j] == ShadedPixel(before.At(x, j), x, j, width, height, colorbase, theme)
        invariant forall i, j | 0 <= i < width && 0 <= j < height && (i < x || (i == x && j < y)) ::
          img[i, j] == before.At(i, j)
        invariant forall i: nat, j: nat | i < width && j < height ::
          visits[(i, j)] == if x < i || (x == i && y <= j) then 1 else 0
        invariant forall p | p in visits :: x <= p.0 < width && p.1 < height && (x == p.0 ==> y <= p.1)
      {
        y := y - 1;
        var rgb := img[x, y];
        img[x, y] := ShadedPixel(rgb, x, y, width, height, colorbase, theme);
        visits := visits + multiset{(x, y)};
      }
    }
    ghost var after, expected := Snapshot(img), Recoloured(before, colorbase, theme);
    forall i | 0 <= i < width
      ensures after.columns[i] == expected.columns[i]
    {
      assert forall j | 0 <= j < height :: after.columns[i][j] == expected.columns[i][j];
    }
  }

  /** Recolours every size of an icon. */
  function ColorizeIcon(icon: Icon, colorbase: Color, theme: Theme): (r: Icon)
    requires icon.Valid()
    ensures r.Valid() && |r.images| == |icon.images|
    ensures forall i | 0 <= i < |icon.images| :: SameMask(icon.images[i], r.images[i])
    ensures theme.Default? ==> forall i | 0 <= i < |icon.images| :: PaintedWith(r.images[i], colorbase)
    ensures forall i | 0 <= i < |icon.images| :: r.images[i] == Recoloured(icon.images[i], colorbase, theme)
  {
    Icon(seq(|icon.images|, i requires 0 <= i < |icon.images| => Recoloured(icon.images[i], colorbase, theme)))
  }

  /** Flat recolouring with the same colour twice changes nothing the first time did not. */
  lemma FlatRecolourIdempotent(img: Image, colorbase: Color)
    requires img.Valid()
    ensures Recoloured(Recoloured(img, colorbase, Default), colorbase, Default) == Recoloured(img, colorbase, Default)
  {
    var once := Recoloured(img, colorbase, Default);
    var twice := Recoloured(once, colorbase, Default);
    forall x | 0 <= x < img.width
      ensures twice.columns[x] == once.columns[x]
    {
      assert forall y | 0 <= y < img.height :: twice.columns[x][y] == once.columns[x][y];
    }
  }

  /** A fully opaque image recoloured flat becomes a solid block of `colorbase`. */
  lemma OpaqueImageBecomesSolid(img: Image, colorbase: Color)
    requires img.Valid()
    requires forall x: nat, y: nat | x < img.width && y < img.height :: img.At(x, y).alpha == 255
    ensures var r := Recoloured(img, colorbase, Default);
      forall x: nat, y: nat | x < img.width && y < img.height ::
        r.At(x, y) == Pixel(255, colorbase.red, colorbase.green, colorbase.blue)
  {
  }

  /** Recolouring sees only the alpha of the image: two images with the same mask give the same result. */
  lemma RecolourSeesOnlyAlpha(a: Image, b: Image, colorbase: Color, theme: Theme)
    requires a.Valid() && b.Valid() && SameMask(a, b)
    ensures Recoloured(a, colorbase, theme) == Recoloured(b, colorbase, theme)
  {
    var ra, rb := Recoloured(a, colorbase, theme), Recoloured(b, colorbase, theme);
    forall x | 0 <= x < a.width
      ensures ra.columns[x] == rb.columns[x]
    {
      forall y | 0 <= y < a.height
        ensures ra.columns[x][y] == rb.columns[x][y]
      {
        assert a.At(x, y).alpha == b.At(x, y).alpha;
      }
    }
  }

  /** Under the custom theme the colour passed in is not used at all. */
  lemma CustomThemeIgnoresColorbase(img: Image, c1: Color, c2: Color, blend: Blender)
    requires img.Valid()
    ensures Recoloured(img, c1, Custom(blend)) == Recoloured(img, c2, Custom(blend))
  {
    var r1, r2 := Recoloured(img, c1, Custom(blend)), Recoloured(img, c2, Custom(blend));
    forall x | 0 <= x < img.width
      ensures r1.columns[x] == r2.columns[x]
    {
      assert forall y | 0 <= y < img.height :: r1.columns[x][y] == r2.columns[x][y];
    }
  }

  /**
   * On the diagonal x == y the gradient blends towards its left colour, and
   * the factor is zero, which leaves the middle colour, exactly when the image
   * is square or x is 0.
   */
  lemma DiagonalBlendFactor(x: nat, width: nat, height: nat)
    requires x < width && x < height
    ensures GradientEnd(x, x) == GradientLeft
    ensures BlendFactor(x, x, width, height) == 0.0 <==> (x == 0 || width == height)
  {
  }

  /** In a square image the factor is never negative and stays below 1.25. */
  lemma SquareBlendFactorRange(x: nat, y: nat, n: nat)
    requires x < n && y < n
    ensures 0.0 <= BlendFactor(x, y, n, n) < 1.25
  {
  }

  /** The factor is not clamped to [0, 1]: it exceeds 1 near a corner and is negative in some non-square images. */
  lemma BlendFactorUnclamped()
    ensures BlendFactor(9, 0, 10, 10) == 1.125
    ensures BlendFactor(1, 1, 2, 4) == -0.3125
  {
  }
}
