/** 8-bit colour channels and RGB triples, as found in a quantized palette. */
module Colors {
  /** One colour channel: an unsigned 8-bit integer. */
  type Byte = x: int | 0 <= x < 256

  /** An RGB triple; the source handles it as a Python 3-tuple `(r, g, b)`. */
  datatype Rgb = Rgb(r: Byte, g: Byte, b: Byte)

  const Black := Rgb(0, 0, 0)
  const White := Rgb(255, 255, 255)
}
