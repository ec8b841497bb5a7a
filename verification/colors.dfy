/**
 * Colours and ARGB pixels as plain values.
 *
 * A colour channel is an 8-bit intensity; a pixel of a 32-bit ARGB image is
 * the 4-tuple (alpha, red, green, blue) of such channels.  The packing of the
 * tuple into one 32-bit word is not modelled.
 */
module Colors {

  /** One 8-bit colour channel. */
  newtype Channel = c: int | 0 <= c < 256

  /** An opaque RGB colour. */
  datatype Color = Color(red: Channel, green: Channel, blue: Channel)

  /** One pixel of a 32-bit ARGB image. */
  datatype Pixel = Pixel(alpha: Channel, red: Channel, green: Channel, blue: Channel)
  {
    /** The colour of the pixel, without its alpha. */
    function Rgb(): Color {
      Color(red, green, blue)
    }
  }

  /** Black, the colour the style's colour fields start from. */
  const Black := Color(0, 0, 0)

  /** The accent colour of the custom theme. */
  const ThemeAccent := Color(12, 175, 165)

  /** The right end of the custom theme's gradient (the same colour as the accent). */
  const GradientRight := Color(12, 175, 165)

  /** The left end of the custom theme's gradient. */
  const GradientLeft := Color(108, 200, 239)

  /** The middle of the custom theme's gradient. */
  const GradientMid := Color(102, 204, 204)

  /** A pixel with the RGB of `c` and the given alpha. */
  function WithAlpha(c: Color, alpha: Channel): (p: Pixel)
    ensures p.alpha == alpha && p.Rgb() == c
  {
    Pixel(alpha, c.red, c.green, c.blue)
  }
}
