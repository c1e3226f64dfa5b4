# colors-counter in Dafny

`colors-counter.py` counts the pixels of each colour in an image. The image is
quantized to an adaptive palette of at most 256 colours. The script then does four things:

- It writes a text report: a header with the number of colours, one line per
  colour giving its pixel count, RGB tuple and `#rrggbb` code, and a separator and
  attribution at the end.
- It prints one console line per colour.
- It saves one 200x100 swatch image per colour as `color_0<i>.png`. Each swatch is
  labelled in black or white, whichever contrasts with the colour.
- It pastes all swatches into a four-column grid and saves it as `all_colors.png`.

The model covers everything the script computes in between:

- `Decimal` gives the decimal numerals that f-strings write, and their parser.
- `Hex` gives `rgb_to_hex`, and a decoder for its output.
- `Contrast` gives `get_contrast_color`, decided exactly on integers.
- `Report` gives every fixed text and every text the script formats.
- `Grid` gives the composite's canvas size and the offset of each swatch, both as a
  function and as the paste loop.
- `ColorsCounter` gives the loop of `count_colors` over the histogram, with its
  palette cursor `n`, and the command-line handling of the main block.

The image library's work arrives as inputs:

- the flat palette list from `getpalette()`, as an `array` of bytes;
- the histogram from `getcolors()`, as a sequence of (count, palette index) entries;
- the outcome of `Image.open`.

The script's effects are returned as a `Run` value:

- the console lines, in order;
- the report file's path and its `file.write` strings, in order;
- the saved swatches;
- the composite, with the file it is saved to;
- whether the call ended in an exception.

The loop advances its cursor by three per histogram entry and ignores each entry's own
palette index. If the palette is shorter than three times the number of entries,
one of the three reads at line 64 raises `IndexError` part-way. That path is modelled, not excluded:

- the report keeps the header and the lines written so far, without the trailer;
- the swatches saved before the failure remain;
- no composite is made;
- the run records `PaletteIndexOutOfRange` at the entry that failed.

## Model

| member | source | states |
|---|---|---|
| `Hex.RgbToHex` | colors-counter.py:16-18 | the code is 7 characters: `#` and six lowercase hexadecimal digits |
| `Hex.RgbToHexLayout` | colors-counter.py:18 | characters 1-2, 3-4, 5-6 are the red, green and blue channels, each high digit first |
| `Hex.RgbToHexZeroPadded` | colors-counter.py:18 | a channel below 16 is padded with a leading `0` (`{:02x}`) |
| `Hex.DigitValue` | colors-counter.py:18 | the digit decoder accepts exactly the lowercase hexadecimal digits and inverts the digit encoder |
| `Hex.HexRoundTrip` | colors-counter.py:16-18 | decoding the code of any colour gives back that colour |
| `Hex.HexToRgbSound` | colors-counter.py:16-18 | any string the decoder accepts is the code of the colour it decodes to, so codes are canonical |
| `Hex.RgbToHexInjective` | colors-counter.py:16-18 | different colours have different codes |
| `Report.TupleText` | colors-counter.py:68 | definition: `str` of an RGB tuple, `(r, g, b)` with each channel's decimal numeral |
| `Report.Header` | colors-counter.py:58 | definition: the fixed prefix, the entry count's numeral and the fixed suffix, as `HeaderStatesCount` reads back |
| `Report.ReportLine` | colors-counter.py:68 | definition: count, tuple and hex code separated by spaces, then a newline |
| `Report.ConsoleLine` | colors-counter.py:70 | definition: `Color <i>: <tuple> <hex> - <count> pixels` |
| `Report.SwatchLabel` | colors-counter.py:80 | definition: `Color <i>`, `RGB: <tuple>`, `HEX: <hex>`, `Count: <count>` on four lines |
| `Report.SwatchFileName` | colors-counter.py:84 | definition: `color_0`, the index's numeral, `.png` |
| `Report.SwatchLabelLines` | colors-counter.py:80 | the swatch label has exactly three line breaks, so four lines |
| `Grid.Rows` | colors-counter.py:97 | definition: `(N + 3) div 4`, proved the ceiling of N/4 by `RowsIsCeiling` |
| `Grid.Cell` | colors-counter.py:107-108 | definition: the offset of swatch k is ((k mod 4)·w, (k div 4)·h) |
| `Grid.Arrange` | colors-counter.py:93-109 | no layout exactly when there is no swatch; otherwise one offset per swatch |
| `Decimal.Dec` | colors-counter.py:58 | a numeral is all digits, non-empty, has no leading zero, and has one digit exactly below 10 |
| `Decimal.DecRoundTrip` | colors-counter.py:58 | parsing the numeral of `n` gives `n` |
| `Decimal.DecInjective` | colors-counter.py:84 | different numbers have different numerals |
| `Decimal.DecCanonical` | colors-counter.py:58 | every digit string without a leading zero is the numeral of its value |
| `Contrast.ContrastColor` | colors-counter.py:20-31 | the text colour is black or white |
| `Contrast.ContrastMatchesLuminance` | colors-counter.py:30-31 | the integer test `299R+587G+114B > 127500` gives the same colour as the source's luminance formula evaluated exactly |
| `Contrast.BlackIffBright` | colors-counter.py:30-31 | black if and only if the luminance exceeds 0.5; white if and only if it does not |
| `Contrast.ContrastExtremes` | colors-counter.py:31 | white gets black text and black gets white text |
| `Contrast.ContrastMidGrey` | colors-counter.py:30-31 | grey 128 gets black text and grey 127 gets white text |
| `Contrast.ContrastMonotone` | colors-counter.py:30-31 | raising channels never turns black text into white |
| `Contrast.BoundaryTriple` | colors-counter.py:30-31 | (0, 204, 68) lies exactly on the threshold and gets white text |
| `Report.HeaderStatesCount` | colors-counter.py:58 | the header is its fixed prefix, a numeral that parses back to the entry count, and its fixed suffix |
| `Report.HeaderInjective` | colors-counter.py:58 | headers for different counts differ |
| `Report.EmptyHeader` | colors-counter.py:58 | an empty histogram's header states the count `0` |
| `Report.ReportLineIsOneLine` | colors-counter.py:68 | each report line has exactly one newline, at its end |
| `Report.SwatchFileNamesDistinct` | colors-counter.py:84 | different indices give different swatch file names, so no swatch overwrites another |
| `Report.SwatchFileNameExamples` | colors-counter.py:84 | indices 0, 1, 2, 3 and 10 give `color_00.png`, `color_01.png`, `color_02.png`, `color_03.png` and `color_010.png` |
| `Grid.RowsIsCeiling` | colors-counter.py:97 | the row count is the ceiling of N/4: four rows' worth of cells is at least N, one row fewer is less |
| `Grid.CellInside` | colors-counter.py:103-108 | every cell lies inside the canvas |
| `Grid.CellsDisjoint` | colors-counter.py:106-109 | the cells of different swatches do not overlap |
| `Grid.CellsRowMajor` | colors-counter.py:106-109 | a later swatch is lower, or on the same row and further right |
| `Grid.ArrangeIsGrid` | colors-counter.py:93-109 | for N > 0: canvas 4w wide and `Rows(N)`·h = ceil(N/4)·h high, N offsets, all inside, pairwise disjoint, in row-major order |
| `Grid.FourSwatchesOneRow` | colors-counter.py:93-109 | four 200x100 swatches give an 800x100 canvas with offsets x = 0, 200, 400, 600 on row 0 |
| `Grid.Layout` | colors-counter.py:93-109 | the paste loop gives no composite for N = 0 and otherwise the layout `ArrangeIsGrid` describes |
| `ColorsCounter.MakeSwatch` | colors-counter.py:73-84 | definition: the 200x100 swatch filled with the colour, labelled at (10, 10) in its contrast colour, saved as `color_0<i>.png` |
| `ColorsCounter.Walk` | colors-counter.py:57-113 | definition: the whole call once the image is loaded, `Completed` when the palette holds a triple for every entry and `Aborted` otherwise |
| `ColorsCounter.Completed` | colors-counter.py:57-113 | definition: all console lines, then the composite message if there is a swatch; header, lines and trailer in the report; every swatch; the composite saved as `all_colors.png` when there is a swatch; no failure |
| `ColorsCounter.Aborted` | colors-counter.py:57-86 | definition: the outputs of the entries before the first short read, a report without trailer, no composite, and the failure at that entry |
| `ColorsCounter.Processed` | colors-counter.py:62-64 | the loop gets through every entry exactly when the palette has 3 values per entry; otherwise it stops at the first entry whose read runs past the end |
| `ColorsCounter.WalkPalette` | colors-counter.py:60-86 | the loop, with cursor n = 3i, produces the report lines, console lines and swatches of the entries it reaches, and stops where the palette runs out |
| `ColorsCounter.CountColors` | colors-counter.py:57-113 | once the image is loaded, the whole call is the ordered effects described by `Walk` |
| `ColorsCounter.WalkOutcome` | colors-counter.py:62-86 | the call completes iff the palette is long enough; otherwise the failure names the first entry out of range, and one swatch exists per entry reached |
| `ColorsCounter.WalkEntryLine` | colors-counter.py:64-68 | report line i gives entry i's count and the palette triple at cursor 3i |
| `ColorsCounter.WalkEntryConsole` | colors-counter.py:64-70 | console line i gives index i, the triple at cursor 3i and entry i's count |
| `ColorsCounter.WalkEntrySwatch` | colors-counter.py:73-84 | swatch i is 200x100, filled with the triple at 3i, labelled at (10, 10) in its contrast colour, and saved as `color_0<i>.png` |
| `ColorsCounter.WalkReport` | colors-counter.py:57-90 | the report goes to the output path: the header, then one line per entry reached, then, only on completion, the separator and attribution |
| `ColorsCounter.SwatchNamesDistinct` | colors-counter.py:84 | no two swatches of one call share a file name |
| `ColorsCounter.SwatchTextContrasts` | colors-counter.py:77-81 | each swatch's text colour is `ContrastColor` of its fill |
| `ColorsCounter.OutputsIgnoreIndex` | colors-counter.py:62 | the outputs for the first k entries depend only on the entries' counts |
| `ColorsCounter.WalkIgnoresIndex` | colors-counter.py:62 | histograms with the same counts in the same order give identical calls, whatever their palette indices |
| `ColorsCounter.EmptyHistogram` | colors-counter.py:57-93 | no colours: the report is the header and trailer only, nothing is printed, and no swatch or composite is made |
| `ColorsCounter.WalkComposite` | colors-counter.py:93-113 | on completion, the composite is saved as `all_colors.png`, has one cell per swatch, is 800 wide and ceil(N/4)·100 high, and its message is printed last; with no swatch there is neither |
| `ColorsCounter.FourColours` | colors-counter.py:84-109 | four colours give an 800x100 composite in one row, saved as `all_colors.png`, and swatch files `color_00.png`, `color_01.png`, `color_02.png`, `color_03.png` |
| `ColorsCounter.BodyLineCount` | colors-counter.py:62-68 | the lines written for k entries hold exactly k newlines and end in one |
| `ColorsCounter.ReportText` | colors-counter.py:58-90 | a completed report's text is the header, the entry lines, the separator, and the attribution with no final newline |
| `ColorsCounter.ParseArgs` | colors-counter.py:117-119 | the usage error exactly when no argument is given; otherwise the image path is the first argument |
| `ColorsCounter.ParseArgsCases` | colors-counter.py:117-124 | with no argument, the usage error; with one, output `count.txt`; with two or more, the second argument, and later ones are ignored |
| `ColorsCounter.RunScript` | colors-counter.py:41-124 | usage message, "File not found.", or "Error opening file: " with the reason, each with no files written; otherwise the call to `count_colors` on the selected output path |

## Left out

- The image library is left out: opening, converting to RGB, adaptive quantization to 256 colours, `getpalette` and `getcolors`. Their results are inputs.
- Swatches are modelled as values (file name, size, fill, label, label position and colour), and the composite as its file name, canvas size and paste offsets. Pixels and font rendering are not modelled.
- Effects are returned as values, not performed: file system writes, saving images, and `print`. The newline `print` adds after each console line is not included in the console strings.
- The order of console output relative to file writes is not recorded. Each is kept in its own order.
- `getcolors()` returning `None` is not modelled. That happens only for images with more than 256 colours, which quantization excludes, so the histogram is a list here.
- Exceptions other than `IndexError` on the palette are not modelled (disk full, unwritable paths, a failing image save). `Image.open` failures are only the two outcomes the script distinguishes; the message text of a general exception is a parameter.
- Contrast.ContrastColor: decides the luminance test exactly. The source computes it in floating point, so a colour exactly on the threshold, such as (0, 204, 68), may be rounded either way there; the model gives it white text.
- Any older variant of the script in the repository is not part of this model.
- Tuples are formatted only as `str` renders a tuple of small non-negative integers: `(r, g, b)`.
- The composite's white background is not modelled. Every cell is covered by a swatch, except the unused cells of the last row.
