/**
 * `get_contrast_color`: black text on light backgrounds, white text on dark ones.
 * The luminance test of the source, (0.299 R + 0.587 G + 0.114 B) / 255 > 0.5, is
 * decided here exactly, on integers scaled by 255000.
 */
module Contrast {
  import opened Colors

  /** 255000 times the source's luminance. */
  function WeightedSum(c: Rgb): nat
  {
    299 * c.r + 587 * c.g + 114 * c.b
  }

  /** 255000 times the luminance threshold 0.5. */
  const Threshold := 127500

  function ContrastColor(c: Rgb): (t: Rgb)
    ensures t == Black || t == White
  {
    if WeightedSum(c) > Threshold then Black else White
  }

  /** The luminance of the source, over exact rationals instead of floating point. */
  ghost function Luminance(c: Rgb): real
  {
    (0.299 * c.r as real + 0.587 * c.g as real + 0.114 * c.b as real) / 255.0
  }

  /** The integer test agrees with the source's luminance formula taken exactly. */
  lemma ContrastMatchesLuminance(c: Rgb)
    ensures ContrastColor(c) == (if Luminance(c) > 0.5 then Black else White)
  {
    assert Luminance(c) * 255000.0 == WeightedSum(c) as real;
  }

  /** Black is chosen exactly when the luminance exceeds one half. */
  lemma BlackIffBright(c: Rgb)
    ensures ContrastColor(c) == Black <==> Luminance(c) > 0.5
    ensures ContrastColor(c) == White <==> Luminance(c) <= 0.5
  {
    ContrastMatchesLuminance(c);
  }

  /** White gets black text and black gets white text. */
  lemma ContrastExtremes()
    ensures ContrastColor(White) == Black
    ensures ContrastColor(Black) == White
  {
  }

  /** Mid grey (128,128,128) lies just above one half, (127,127,127) just below. */
  lemma ContrastMidGrey()
    ensures ContrastColor(Rgb(128, 128, 128)) == Black
    ensures ContrastColor(Rgb(127, 127, 127)) == White
  {
  }

  /** Raising any channel never turns black text into white text. */
  lemma ContrastMonotone(c: Rgb, d: Rgb)
    requires c.r <= d.r && c.g <= d.g && c.b <= d.b
    ensures ContrastColor(c) == Black ==> ContrastColor(d) == Black
  {
  }

  /**
   * There are triples exactly on the threshold; the exact test gives them white text.
   * The source's floating-point evaluation may round them either way.
   */
  lemma BoundaryTriple()
    ensures WeightedSum(Rgb(0, 204, 68)) == Threshold
    ensures ContrastColor(Rgb(0, 204, 68)) == White
  {
  }
}
