/** Colours as red, green and blue components. */
module Colors {

  /** A component as the scripts store it: an integer, 0..255 when it came from a byte. */
  datatype Rgb = Rgb(r: int, g: int, b: int)

  predicate IsByte(x: int)
  {
    0 <= x < 256
  }

  predicate IsByteColor(c: Rgb)
  {
    IsByte(c.r) && IsByte(c.g) && IsByte(c.b)
  }
}
