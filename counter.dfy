/**
 * `count_colors` and the script's entry point. The image library's part (opening
 * the file, quantizing to an adaptive 256-colour palette, `getpalette`,
 * `getcolors`) arrives as inputs: a flat palette and the histogram. Everything the
 * function writes or prints is returned in a `Run` instead of being performed.
 */
module ColorsCounter {
  import opened Wrappers
  import opened Colors
  import opened Hex
  import opened Contrast
  import opened Report
  import opened Grid

  /** One histogram entry of `getcolors()`: a pixel count and a palette index. */
  datatype ColorCount = ColorCount(count: nat, index: nat)

  /** The size of every swatch image, and where its label is drawn. */
  const SwatchWidth := 200
  const SwatchHeight := 100
  const LabelOrigin := Offset(10, 10)

  /** A saved swatch: its file, a canvas filled with one colour, and its label. */
  datatype Swatch = Swatch(fileName: string, width: nat, height: nat, fill: Rgb,
                           textColor: Rgb, captionAt: Offset, caption: string)

  /** The text file: the strings passed to `file.write`, in order. */
  datatype ReportFile = ReportFile(path: string, writes: seq<string>)

  /** One of the three palette reads of this entry ran past the end of the palette. */
  datatype Failure = PaletteIndexOutOfRange(entry: nat)

  /** The composite image and the file it is saved to. */
  datatype SavedComposite = SavedComposite(fileName: string, layout: Composite)

  /** Everything one call leaves behind: console lines in order, files, and whether it ended in an exception. */
  datatype Run = Run(console: seq<string>, report: Option<ReportFile>, swatches: seq<Swatch>,
                     composite: Option<SavedComposite>, failure: Option<Failure>)

  /** The colour read for entry `i`: the triple at cursor `3 * i`. */
  function ColorAt(pal: seq<Byte>, i: nat): Rgb
    requires 3 * i + 2 < |pal|
  {
    Rgb(pal[3 * i], pal[3 * i + 1], pal[3 * i + 2])
  }

  /** How many entries the loop gets through before the palette runs out. */
  function Processed(entries: nat, paletteLength: nat): (k: nat)
    ensures k <= entries && 3 * k <= paletteLength
    ensures k == entries <==> 3 * entries <= paletteLength
    ensures k < entries ==> 3 * k + 2 >= paletteLength
  {
    if 3 * entries <= paletteLength then entries else paletteLength / 3
  }

  /** The swatch of entry `i`: label in the contrast colour at (10, 10), saved as `color_0<i>.png`. */
  function MakeSwatch(i: nat, c: Rgb, count: nat): Swatch
  {
    Swatch(SwatchFileName(i), SwatchWidth, SwatchHeight, c, ContrastColor(c), LabelOrigin, SwatchLabel(i, c, count))
  }

  /** The report lines of the first `k` entries. */
  function Lines(hist: seq<ColorCount>, pal: seq<Byte>, k: nat): seq<string>
    requires k <= |hist| && 3 * k <= |pal|
  {
    seq(k, j requires 0 <= j < k => ReportLine(hist[j].count, ColorAt(pal, j)))
  }

  /** The console lines of the first `k` entries. */
  function ConsoleLines(hist: seq<ColorCount>, pal: seq<Byte>, k: nat): seq<string>
    requires k <= |hist| && 3 * k <= |pal|
  {
    seq(k, j requires 0 <= j < k => ConsoleLine(j, ColorAt(pal, j), hist[j].count))
  }

  /** The swatches of the first `k` entries. */
  function Swatches(hist: seq<ColorCount>, pal: seq<Byte>, k: nat): seq<Swatch>
    requires k <= |hist| && 3 * k <= |pal|
  {
    seq(k, j requires 0 <= j < k => MakeSwatch(j, ColorAt(pal, j), hist[j].count))
  }

  /** What `count_colors` leaves behind, given the palette and the histogram of the image. */
  function Walk(path: string, hist: seq<ColorCount>, pal: seq<Byte>): Run
  {
    if 3 * |hist| <= |pal| then Completed(path, hist, pal) else Aborted(path, hist, pal)
  }

  /** Every entry was read: the trailer is written, and the composite is made when there is a swatch. */
  function Completed(path: string, hist: seq<ColorCount>, pal: seq<Byte>): Run
    requires 3 * |hist| <= |pal|
  {
    Run(ConsoleLines(hist, pal, |hist|) + (if |hist| > 0 then [CompositeMessage] else []),
        Some(ReportFile(path, [Header(|hist|)] + Lines(hist, pal, |hist|) + [Separator, Attribution])),
        Swatches(hist, pal, |hist|),
        if |hist| > 0 then Some(SavedComposite(CompositeFileName, Arrange(|hist|, SwatchWidth, SwatchHeight).value)) else None,
        None)
  }

  /**
   * The palette ran out at entry `|pal| / 3`: the exception leaves the report without
   * its trailer (the `with` block still closes the file) and no composite is made.
   */
  function Aborted(path: string, hist: seq<ColorCount>, pal: seq<Byte>): Run
    requires 3 * |hist| > |pal|
  {
    Run(ConsoleLines(hist, pal, |pal| / 3),
        Some(ReportFile(path, [Header(|hist|)] + Lines(hist, pal, |pal| / 3))),
        Swatches(hist, pal, |pal| / 3), None, Some(PaletteIndexOutOfRange(|pal| / 3)))
  }

  /** Reading at cursor `3 * i` gives the colour of entry `i`. */
  lemma CursorRead(pal: array<Byte>, n: nat, i: nat)
    requires n == 3 * i && n + 2 < pal.Length
    ensures Rgb(pal[n], pal[n + 1], pal[n + 2]) == ColorAt(pal[..], i)
  {
  }

  /** One more entry extends the report lines by that entry's line. */
  lemma LinesStep(hist: seq<ColorCount>, pal: seq<Byte>, i: nat)
    requires i < |hist| && 3 * i + 2 < |pal|
    ensures Lines(hist, pal, i + 1) == Lines(hist, pal, i) + [ReportLine(hist[i].count, ColorAt(pal, i))]
  {
    var longer, shorter := Lines(hist, pal, i + 1), Lines(hist, pal, i);
    forall j | 0 <= j < i
      ensures longer[j] == shorter[j]
    {
    }
  }

  /** One more entry extends the console lines by that entry's line. */
  lemma ConsoleLinesStep(hist: seq<ColorCount>, pal: seq<Byte>, i: nat)
    requires i < |hist| && 3 * i + 2 < |pal|
    ensures ConsoleLines(hist, pal, i + 1) == ConsoleLines(hist, pal, i) + [ConsoleLine(i, ColorAt(pal, i), hist[i].count)]
  {
    var longer, shorter := ConsoleLines(hist, pal, i + 1), ConsoleLines(hist, pal, i);
    forall j | 0 <= j < i
      ensures longer[j] == shorter[j]
    {
    }
  }

  /** One more entry extends the swatches by that entry's swatch. */
  lemma SwatchesStep(hist: seq<ColorCount>, pal: seq<Byte>, i: nat)
    requires i < |hist| && 3 * i + 2 < |pal|
    ensures Swatches(hist, pal, i + 1) == Swatches(hist, pal, i) + [MakeSwatch(i, ColorAt(pal, i), hist[i].count)]
  {
    var longer, shorter := Swatches(hist, pal, i + 1), Swatches(hist, pal, i);
    forall j | 0 <= j < i
      ensures longer[j] == shorter[j]
    {
    }
  }

  /**
   * The loop of `count_colors`: cursor `n` advances by 3 per histogram entry, so
   * entry `i` reads `pal[3 * i .. 3 * i + 2]`; the entry's own palette index is not
   * used. The loop stops at the first entry whose read would raise IndexError.
   */
  method WalkPalette(hist: seq<ColorCount>, pal: array<Byte>)
      returns (lines: seq<string>, console: seq<string>, swatches: seq<Swatch>, processed: nat)
    ensures processed == Processed(|hist|, pal.Length)
    ensures lines == Lines(hist, pal[..], processed)
    ensures console == ConsoleLines(hist, pal[..], processed)
    ensures swatches == Swatches(hist, pal[..], processed)
  {
    ghost var palette := pal[..];
    lines, console, swatches := [], [], [];
    var n := 0;
    var i := 0;
    while i < |hist| && n + 2 < pal.Length
      invariant 0 <= i <= |hist| && n == 3 * i && n <= pal.Length
      invariant lines == Lines(hist, palette, i)
      invariant console == ConsoleLines(hist, palette, i)
      invariant swatches == Swatches(hist, palette, i)
    {
      var color := Rgb(pal[n], pal[n + 1], pal[n + 2]);
      var count := hist[i].count;
      CursorRead(pal, n, i);
      LinesStep(hist, palette, i);
      ConsoleLinesStep(hist, palette, i);
      SwatchesStep(hist, palette, i);
      lines := lines + [ReportLine(count, color)];
      console := console + [ConsoleLine(i, color, count)];
      swatches := swatches + [MakeSwatch(i, color, count)];
      n := n + 3;
      i := i + 1;
    }
    processed := i;
  }

  /**
   * `count_colors` after the image is loaded: the header, the palette walk, then
   * either the exception of a short palette, or the trailer and the composite.
   */
  method CountColors(path: string, hist: seq<ColorCount>, pal: array<Byte>) returns (run: Run)
    ensures run == Walk(path, hist, pal[..])
  {
    var header := Header(|hist|);
    var lines, console, swatches, processed := WalkPalette(hist, pal);
    if processed < |hist| {
      run := Run(console, Some(ReportFile(path, [header] + lines)), swatches, None,
                 Some(PaletteIndexOutOfRange(processed)));
    } else {
      var layout := Layout(|swatches|, SwatchWidth, SwatchHeight);
      var saved: Option<SavedComposite> := None;
      if layout.Some? {
        saved := Some(SavedComposite(CompositeFileName, layout.value));
        console := console + [CompositeMessage];
      }
      run := Run(console, Some(ReportFile(path, [header] + lines + [Separator, Attribution])), swatches, saved, None);
    }
  }

  /**
   * The call completes exactly when the palette holds a triple for every entry;
   * otherwise the exception comes at the first entry whose read runs past the palette.
   */
  lemma WalkOutcome(path: string, hist: seq<ColorCount>, pal: seq<Byte>)
    ensures var run, k := Walk(path, hist, pal), Processed(|hist|, |pal|);
      && (run.failure.None? <==> 3 * |hist| <= |pal|)
      && |run.swatches| == k
      && (run.failure.Some? ==> run.failure.value.entry == k < |hist| && 3 * k + 2 >= |pal|)
  {
  }

  /**
   * Entry `i`, when it is reached, writes one report line with its pixel count and
   * the colour at cursor `3 * i`, right after the header and the lines before it.
   */
  lemma WalkEntryLine(path: string, hist: seq<ColorCount>, pal: seq<Byte>, i: nat)
    requires i < |hist| && 3 * i + 2 < |pal|
    ensures var writes := Walk(path, hist, pal).report.value.writes;
      1 + i < |writes| && writes[1 + i] == ReportLine(hist[i].count, Rgb(pal[3 * i], pal[3 * i + 1], pal[3 * i + 2]))
  {
    var k := Processed(|hist|, |pal|);
    assert i < k;
    WalkReport(path, hist, pal);
    var writes := Walk(path, hist, pal).report.value.writes;
    assert writes[1 + i] == writes[1..1 + k][i] == Lines(hist, pal, k)[i];
  }

  /** Entry `i`, when it is reached, prints its index, the colour at cursor `3 * i` and its count. */
  lemma WalkEntryConsole(path: string, hist: seq<ColorCount>, pal: seq<Byte>, i: nat)
    requires i < |hist| && 3 * i + 2 < |pal|
    ensures var console := Walk(path, hist, pal).console;
      i < |console| && console[i] == ConsoleLine(i, Rgb(pal[3 * i], pal[3 * i + 1], pal[3 * i + 2]), hist[i].count)
  {
    assert i < Processed(|hist|, |pal|);
  }

  /**
   * Entry `i`, when it is reached, saves a 200x100 swatch filled with the colour at
   * cursor `3 * i` as `color_0<i>.png`, labelled at (10, 10) in its contrast colour.
   */
  lemma WalkEntrySwatch(path: string, hist: seq<ColorCount>, pal: seq<Byte>, i: nat)
    requires i < |hist| && 3 * i + 2 < |pal|
    ensures var swatches, c := Walk(path, hist, pal).swatches, Rgb(pal[3 * i], pal[3 * i + 1], pal[3 * i + 2]);
      && i < |swatches|
      && swatches[i] == Swatch(SwatchFileName(i), 200, 100, c, ContrastColor(c), Offset(10, 10),
                               SwatchLabel(i, c, hist[i].count))
  {
    assert i < Processed(|hist|, |pal|);
  }

  /**
   * The report goes to the chosen path: the header with the number of entries,
   * one line per entry reached, and the separator and attribution only when
   * every entry was read.
   */
  lemma WalkReport(path: string, hist: seq<ColorCount>, pal: seq<Byte>)
    ensures var run, k := Walk(path, hist, pal), Processed(|hist|, |pal|);
      && run.report.Some? && run.report.value.path == path
      && var writes := run.report.value.writes;
      && writes[0] == Header(|hist|)
      && writes[1..1 + k] == Lines(hist, pal, k)
      && (run.failure.None? ==> writes == [Header(|hist|)] + Lines(hist, pal, k) + [Separator, Attribution])
      && (run.failure.Some? ==> |writes| == 1 + k)
  {
    var run, k := Walk(path, hist, pal), Processed(|hist|, |pal|);
    var writes := run.report.value.writes;
    assert writes[1..1 + k] == Lines(hist, pal, k);
  }

  /** No two swatches of one call are saved under the same file name. */
  lemma SwatchNamesDistinct(path: string, hist: seq<ColorCount>, pal: seq<Byte>, i: nat, j: nat)
    requires i < j < |Walk(path, hist, pal).swatches|
    ensures Walk(path, hist, pal).swatches[i].fileName != Walk(path, hist, pal).swatches[j].fileName
  {
    SwatchFileNamesDistinct(i, j);
  }

  /** Entry `i`'s text colour is the contrast colour of the colour it shows. */
  lemma SwatchTextContrasts(path: string, hist: seq<ColorCount>, pal: seq<Byte>, i: nat)
    requires i < |Walk(path, hist, pal).swatches|
    ensures var s := Walk(path, hist, pal).swatches[i];
      s.textColor == ContrastColor(s.fill)
  {
  }

  /** The first `k` outputs depend on the entries' counts only, not on their palette indices. */
  lemma {:induction false} OutputsIgnoreIndex(h1: seq<ColorCount>, h2: seq<ColorCount>, pal: seq<Byte>, k: nat)
    requires k <= |h1| == |h2| && 3 * k <= |pal|
    requires forall j :: 0 <= j < |h1| ==> h1[j].count == h2[j].count
    ensures Lines(h1, pal, k) == Lines(h2, pal, k)
    ensures ConsoleLines(h1, pal, k) == ConsoleLines(h2, pal, k)
    ensures Swatches(h1, pal, k) == Swatches(h2, pal, k)
  {
    if k > 0 {
      OutputsIgnoreIndex(h1, h2, pal, k - 1);
      LinesStep(h1, pal, k - 1);
      LinesStep(h2, pal, k - 1);
      ConsoleLinesStep(h1, pal, k - 1);
      ConsoleLinesStep(h2, pal, k - 1);
      SwatchesStep(h1, pal, k - 1);
      SwatchesStep(h2, pal, k - 1);
    }
  }

  /**
   * The palette index of each histogram entry is discarded: two histograms with
   * the same counts in the same order give the same call.
   */
  lemma WalkIgnoresIndex(path: string, h1: seq<ColorCount>, h2: seq<ColorCount>, pal: seq<Byte>)
    requires |h1| == |h2|
    requires forall j :: 0 <= j < |h1| ==> h1[j].count == h2[j].count
    ensures Walk(path, h1, pal) == Walk(path, h2, pal)
  {
    OutputsIgnoreIndex(h1, h2, pal, Processed(|h1|, |pal|));
  }

  /** An image with no colours: header and trailer only, no swatch, no composite, nothing printed. */
  lemma EmptyHistogram(path: string, pal: seq<Byte>)
    ensures Walk(path, [], pal) == Run([], Some(ReportFile(path, [Header(0), Separator, Attribution])), [], None, None)
  {
    assert Lines([], pal, 0) == [];
    assert ConsoleLines([], pal, 0) == [];
    assert Swatches([], pal, 0) == [];
    assert [Header(0)] + Lines([], pal, 0) + [Separator, Attribution] == [Header(0), Separator, Attribution];
  }

  /**
   * When every entry is read, the composite sets one 200x100 cell per swatch in a
   * four-column grid and is announced last; with no swatch there is neither.
   */
  lemma WalkComposite(path: string, hist: seq<ColorCount>, pal: seq<Byte>)
    requires 3 * |hist| <= |pal|
    ensures var run := Walk(path, hist, pal);
      && (|hist| == 0 ==> run.composite.None? && run.console == [])
      && (|hist| > 0 ==>
            && run.composite.Some?
            && run.composite.value.fileName == "all_colors.png"
            && var layout := run.composite.value.layout;
            && |layout.offsets| == |run.swatches|
            && layout.width == 800
            && layout.height == (|hist| + 3) / 4 * 100
            && |run.console| == |hist| + 1
            && run.console[|hist|] == CompositeMessage)
  {
    if |hist| > 0 {
      ArrangeIsGrid(|hist|, SwatchWidth, SwatchHeight);
    }
  }

  /** Four colours fill one row of the composite and are saved as `color_00.png` to `color_03.png`. */
  lemma FourColours(path: string, hist: seq<ColorCount>, pal: seq<Byte>)
    requires |hist| == 4 && |pal| >= 12
    ensures var run := Walk(path, hist, pal);
      && run.composite == Some(SavedComposite("all_colors.png",
           Composite(800, 100, [Offset(0, 0), Offset(200, 0), Offset(400, 0), Offset(600, 0)])))
      && |run.swatches| == 4
      && run.swatches[0].fileName == "color_00.png"
      && run.swatches[1].fileName == "color_01.png"
      && run.swatches[2].fileName == "color_02.png"
      && run.swatches[3].fileName == "color_03.png"
  {
    FourSwatchesOneRow();
    SwatchFileNameExamples();
  }

  /** The text of a file written by successive `file.write` calls. */
  function Concat(writes: seq<string>): string
  {
    if writes == [] then "" else Concat(writes[..|writes| - 1]) + writes[|writes| - 1]
  }

  lemma ConcatAppend(writes: seq<string>, s: string)
    ensures Concat(writes + [s]) == Concat(writes) + s
  {
    assert (writes + [s])[..|writes|] == writes;
  }

  lemma {:induction false} ConcatPrepend(s: string, writes: seq<string>)
    ensures Concat([s] + writes) == s + Concat(writes)
  {
    if writes != [] {
      var init := writes[..|writes| - 1];
      assert ([s] + writes)[..|writes|] == [s] + init;
      ConcatPrepend(s, init);
    }
  }

  /** Writing `n` lines one after another gives a text of `n` lines. */
  lemma {:induction false} ConcatLines(lines: seq<string>)
    requires forall j :: 0 <= j < |lines| ==> IsLine(lines[j])
    ensures var text := Concat(lines);
      Occurrences(text, '\n') == |lines| && (|lines| > 0 ==> |text| > 0 && text[|text| - 1] == '\n')
  {
    if lines != [] {
      var init, last := lines[..|lines| - 1], lines[|lines| - 1];
      assert IsLine(last);
      ConcatLines(init);
      assert lines == init + [last];
      ConcatAppend(init, last);
      OccurrencesAppend(Concat(init), last, '\n');
    }
  }

  /** The body of the report written for `k` entries holds exactly `k` lines, each ending in a newline. */
  lemma BodyLineCount(hist: seq<ColorCount>, pal: seq<Byte>, k: nat)
    requires k <= |hist| && 3 * k <= |pal|
    ensures Occurrences(Concat(Lines(hist, pal, k)), '\n') == k
    ensures k > 0 ==> var body := Concat(Lines(hist, pal, k)); |body| > 0 && body[|body| - 1] == '\n'
  {
    var lines := Lines(hist, pal, k);
    forall j | 0 <= j < k
      ensures IsLine(lines[j])
    {
      ReportLineIsOneLine(hist[j].count, ColorAt(pal, j));
    }
    ConcatLines(lines);
  }

  /**
   * The text of the report of a completed call: the header, the entry lines, the
   * separator, and the attribution with no final newline.
   */
  lemma ReportText(path: string, hist: seq<ColorCount>, pal: seq<Byte>)
    requires 3 * |hist| <= |pal|
    ensures var writes := Walk(path, hist, pal).report.value.writes;
      Concat(writes) == Header(|hist|) + Concat(Lines(hist, pal, |hist|)) + Separator + Attribution
  {
    var body := Lines(hist, pal, |hist|);
    ConcatAppend([Header(|hist|)] + body, Separator);
    ConcatAppend([Header(|hist|)] + body + [Separator], Attribution);
    ConcatPrepend(Header(|hist|), body);
    assert [Header(|hist|)] + body + [Separator, Attribution] == [Header(|hist|)] + body + [Separator] + [Attribution];
  }

  /** The command line: usage error, or the image path and the output path. */
  datatype Invocation = Usage | Invoke(imagePath: string, outputPath: string)

  const DefaultOutput := "count.txt"
  const UsageMessage := "Arguments are missing. The call should be in the format: color-counter.py image.png [output.txt]"

  /** `sys.argv` handling: an image path is required, the output path is optional. */
  function ParseArgs(argv: seq<string>): (r: Invocation)
    ensures r.Usage? <==> |argv| <= 1
    ensures r.Invoke? ==> r.imagePath == argv[1]
  {
    if |argv| > 1 then Invoke(argv[1], if |argv| > 2 then argv[2] else DefaultOutput) else Usage
  }

  /** Every shape of command line, and what it selects; arguments after the third are ignored. */
  lemma ParseArgsCases(argv: seq<string>)
    ensures |argv| <= 1 ==> ParseArgs(argv) == Usage
    ensures |argv| == 2 ==> ParseArgs(argv) == Invoke(argv[1], "count.txt")
    ensures |argv| >= 3 ==> ParseArgs(argv) == Invoke(argv[1], argv[2]) == ParseArgs(argv[..3])
  {
  }

  /** What opening the image gave: `FileNotFoundError`, another exception, or the quantized image's data. */
  datatype Loaded = FileNotFound | OpenFailed(reason: string)
                  | Opened(palette: array<Byte>, histogram: seq<ColorCount>)

  const NotFoundMessage := "File not found."
  const OpenErrorPrefix := "Error opening file: "

  /** The script's main block; `loaded` is what opening the first argument gave. */
  method RunScript(argv: seq<string>, loaded: Loaded) returns (run: Run)
    ensures ParseArgs(argv).Usage? ==> run == Run([UsageMessage], None, [], None, None)
    ensures ParseArgs(argv).Invoke? && loaded.FileNotFound? ==> run == Run([NotFoundMessage], None, [], None, None)
    ensures ParseArgs(argv).Invoke? && loaded.OpenFailed? ==>
      run == Run([OpenErrorPrefix + loaded.reason], None, [], None, None)
    ensures ParseArgs(argv).Invoke? && loaded.Opened? ==>
      run == Walk(ParseArgs(argv).outputPath, loaded.histogram, loaded.palette[..])
  {
    var invocation := ParseArgs(argv);
    if invocation.Usage? {
      return Run([UsageMessage], None, [], None, None);
    }
    match loaded
    case FileNotFound =>
      run := Run([NotFoundMessage], None, [], None, None);
    case OpenFailed(reason) =>
      run := Run([OpenErrorPrefix + reason], None, [], None, None);
    case Opened(palette, histogram) =>
      run := CountColors(invocation.outputPath, histogram, palette);
  }
}
