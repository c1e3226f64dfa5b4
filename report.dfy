/**
 * The texts `count_colors` writes: the report file's header, one line per colour
 * and trailer, the console line per colour, the label drawn on a swatch and the
 * swatch's file name.
 */
module Report {
  import opened Colors
  import opened Decimal
  import opened Hex

  const HeaderPrefix := "Number of colors in image = "
  const HeaderSuffix := "\n\nPixel count by color:\n\n"

  /** The first write to the report: the number of histogram entries, then a sub-heading. */
  function Header(entries: nat): string
  {
    HeaderPrefix + Dec(entries) + HeaderSuffix
  }

  const Separator := "\n---------------------------------------------\n"
  const Attribution := "image colors counter by nodeus 2018-2025"

  /** The two final writes to the report; the file does not end in a newline. */
  const Trailer := Separator + Attribution

  /** Python's rendering of a 3-tuple of ints, `(r, g, b)`. */
  function TupleText(c: Rgb): string
  {
    "(" + Dec(c.r) + ", " + Dec(c.g) + ", " + Dec(c.b) + ")"
  }

  /** The report line of one colour: `<count> (r, g, b) #rrggbb` and a newline. */
  function ReportLine(count: nat, c: Rgb): string
  {
    Dec(count) + " " + TupleText(c) + " " + RgbToHex(c) + "\n"
  }

  /** The console line printed for colour `i`. */
  function ConsoleLine(i: nat, c: Rgb, count: nat): string
  {
    "Color " + Dec(i) + ": " + TupleText(c) + " " + RgbToHex(c) + " - " + Dec(count) + " pixels"
  }

  /** The four-line label drawn on the swatch of colour `i`. */
  function SwatchLabel(i: nat, c: Rgb, count: nat): string
  {
    "Color " + Dec(i) + "\nRGB: " + TupleText(c) + "\nHEX: " + RgbToHex(c) + "\nCount: " + Dec(count)
  }

  /** The swatch file of colour `i`: a literal `0` before the index, no further padding. */
  function SwatchFileName(i: nat): string
  {
    "color_0" + Dec(i) + ".png"
  }

  const CompositeFileName := "all_colors.png"
  const CompositeMessage := "All the colors saved in all_colors.png"

  /** The number of occurrences of `c` in `s`. */
  function Occurrences(s: string, c: char): nat
  {
    multiset(s)[c]
  }

  lemma OccurrencesAppend(a: string, b: string, c: char)
    ensures Occurrences(a + b, c) == Occurrences(a, c) + Occurrences(b, c)
  {
  }

  lemma OccurrencesNone(s: string, c: char)
    requires c !in s
    ensures Occurrences(s, c) == 0
  {
  }

  lemma DecHasNoNewline(n: nat)
    ensures '\n' !in Dec(n)
  {
    assert !IsDigit('\n');
  }

  lemma TupleTextHasNoNewline(c: Rgb)
    ensures '\n' !in TupleText(c)
  {
    DecHasNoNewline(c.r);
    DecHasNoNewline(c.g);
    DecHasNoNewline(c.b);
  }

  lemma HexHasNoNewline(c: Rgb)
    ensures '\n' !in RgbToHex(c)
  {
    var hex := RgbToHex(c);
    assert !IsLowerHex('\n');
    forall i | 0 <= i < |hex|
      ensures hex[i] != '\n'
    {
    }
  }

  /** `s` is one line of text: it ends in its only newline. */
  predicate IsLine(s: string)
  {
    Occurrences(s, '\n') == 1 && |s| > 0 && s[|s| - 1] == '\n'
  }

  /** Text without a newline, closed by one, is one line. */
  lemma LineOf(front: string)
    requires '\n' !in front
    ensures IsLine(front + "\n")
  {
    OccurrencesNone(front, '\n');
    OccurrencesAppend(front, "\n", '\n');
  }

  /** A report line is one line: it ends in its only newline. */
  lemma ReportLineIsOneLine(count: nat, c: Rgb)
    ensures IsLine(ReportLine(count, c))
  {
    DecHasNoNewline(count);
    TupleTextHasNoNewline(c);
    HexHasNoNewline(c);
    LineOf(Dec(count) + " " + TupleText(c) + " " + RgbToHex(c));
  }

  /** Appending a line break and a one-line field adds exactly one line. */
  lemma BreakThenField(front: string, lead: string, field: string)
    requires StartsLine(lead) && '\n' !in field
    ensures Occurrences(front + lead + field, '\n') == Occurrences(front, '\n') + 1
  {
    assert lead == [lead[0]] + lead[1..];
    OccurrencesNone(lead[1..], '\n');
    OccurrencesNone(field, '\n');
    OccurrencesAppend([lead[0]], lead[1..], '\n');
    OccurrencesAppend(front, lead, '\n');
    OccurrencesAppend(front + lead, field, '\n');
  }

  /** Each field after the first in a swatch label opens with its line break. */
  predicate StartsLine(lead: string)
  {
    |lead| > 0 && lead[0] == '\n' && '\n' !in lead[1..]
  }

  lemma LabelLeadsStartLines()
    ensures StartsLine("\nRGB: ") && StartsLine("\nHEX: ") && StartsLine("\nCount: ")
  {
    assert "\nRGB: "[1..] == "RGB: ";
    assert "\nHEX: "[1..] == "HEX: ";
    assert "\nCount: "[1..] == "Count: ";
  }

  /** Four one-line fields joined by the label's line breaks make four lines. */
  lemma LabelShapeLines(first: string, rgb: string, hex: string, count: string)
    requires '\n' !in first && '\n' !in rgb && '\n' !in hex && '\n' !in count
    ensures Occurrences(first + "\nRGB: " + rgb + "\nHEX: " + hex + "\nCount: " + count, '\n') == 3
  {
    LabelLeadsStartLines();
    OccurrencesNone(first, '\n');
    BreakThenField(first, "\nRGB: ", rgb);
    BreakThenField(first + "\nRGB: " + rgb, "\nHEX: ", hex);
    BreakThenField(first + "\nRGB: " + rgb + "\nHEX: " + hex, "\nCount: ", count);
  }

  /** The swatch label has four lines: the index, the RGB tuple, the hex code and the count. */
  lemma SwatchLabelLines(i: nat, c: Rgb, count: nat)
    ensures Occurrences(SwatchLabel(i, c, count), '\n') == 3
  {
    DecHasNoNewline(i);
    TupleTextHasNoNewline(c);
    HexHasNoNewline(c);
    DecHasNoNewline(count);
    LabelShapeLines("Color " + Dec(i), TupleText(c), RgbToHex(c), Dec(count));
  }

  /** The header states the entry count: the numeral between its fixed parts reads back as it. */
  lemma HeaderStatesCount(entries: nat)
    ensures var h := Header(entries);
      |h| > |HeaderPrefix| + |HeaderSuffix| &&
      h[..|HeaderPrefix|] == HeaderPrefix &&
      h[|h| - |HeaderSuffix|..] == HeaderSuffix &&
      var numeral := h[|HeaderPrefix|..|h| - |HeaderSuffix|];
      (forall i :: 0 <= i < |numeral| ==> IsDigit(numeral[i])) && ParseDec(numeral) == entries
  {
    var h := Header(entries);
    assert h[|HeaderPrefix|..|h| - |HeaderSuffix|] == Dec(entries);
    DecRoundTrip(entries);
  }

  /** Headers for different counts differ. */
  lemma HeaderInjective(m: nat, n: nat)
    requires Header(m) == Header(n)
    ensures m == n
  {
    HeaderStatesCount(m);
    HeaderStatesCount(n);
  }

  /** The header of an empty histogram states the count 0. */
  lemma EmptyHeader()
    ensures Header(0) == HeaderPrefix + "0" + HeaderSuffix
  {
    assert Dec(0) == "0";
  }

  /** Different colour indices give different swatch files, so no swatch overwrites another. */
  lemma SwatchFileNamesDistinct(i: nat, j: nat)
    requires i != j
    ensures SwatchFileName(i) != SwatchFileName(j)
  {
    if SwatchFileName(i) == SwatchFileName(j) {
      var a := SwatchFileName(i);
      assert |Dec(i)| == |Dec(j)|;
      assert Dec(i) == a[7..|a| - 4] == Dec(j);
      DecInjective(i, j);
    }
  }

  /** The file names of the first colours: `color_00.png`, `color_01.png`, …, and `color_010.png` for the eleventh. */
  lemma SwatchFileNameExamples()
    ensures SwatchFileName(0) == "color_00.png"
    ensures SwatchFileName(1) == "color_01.png"
    ensures SwatchFileName(2) == "color_02.png"
    ensures SwatchFileName(3) == "color_03.png"
    ensures SwatchFileName(10) == "color_010.png"
  {
    assert Dec(0) == "0" && Dec(1) == "1" && Dec(2) == "2" && Dec(3) == "3";
    assert Dec(10) == Dec(1) + ['0'];
  }
}
