/**
 * Glyph dumping from a reference font (`dump_font` in services/dump_service.py).
 *
 * For one font and one dump configuration the dump walks the font's best
 * character map in order and writes one bitmap per eligible code point.
 * Parsing the font, rasterising and saving images are outside the model: the
 * font comes in as its metrics, character map and advance widths, the Unicode
 * database as two query functions, and each written bitmap as a `GlyphFile`
 * record (code point, canvas size, path).
 */
module DumpService {
  import opened Wrappers
  import opened HexFormat
  import opened Paths

  /** Name of the reference font, which dumps everything it has. */
  const ArkPixelName: string := "ark-pixel"

  /** First code point of the Private Use Area block, exempt from width clamping. */
  const PrivateUseAreaStart: nat := 0xE000

  /** The font sizes the alphabet table has entries for. */
  const AlphabetSizes: set<int> := {8, 10, 12}

  datatype Block = Block(codeStart: nat, codeEnd: nat, name: string)

  datatype CmapEntry = CmapEntry(codePoint: nat, glyphName: string)

  /** What the dump reads from a parsed font: hhea ascent and descent, head
      unitsPerEm, the best cmap in iteration order and the hmtx advance widths. */
  datatype Font = Font(
    ascent: int,
    descent: int,
    unitsPerEm: int,
    cmap: seq<CmapEntry>,
    advanceWidths: map<string, int>)

  datatype DumpConfig = DumpConfig(name: string, fontSize: int, rasterizeSize: int, dumpDir: string)

  /** The Unicode database queries the dump makes: `str.isprintable` and the block lookup. */
  datatype Unicode = Unicode(isPrintable: nat -> bool, blockOf: nat -> Option<Block>)

  /** One written bitmap: its code point, canvas size and file path. */
  datatype GlyphFile = GlyphFile(codePoint: nat, width: int, height: int, path: string)

  datatype DumpError =
    | ZeroUnitsPerEm                  // division by a zero unitsPerEm
    | UnknownFontSize(fontSize: int)  // no alphabet for the size
    | MissingMetrics(glyphName: string)
    | NoBlock(codePoint: nat)         // the block lookup found nothing

  /** What one character-map entry leads to. */
  datatype Step = Skipped | Dumped(file: GlyphFile) | Aborted(error: DumpError)

  /** Everything that stays fixed while one font is dumped. */
  datatype DumpRun = DumpRun(
    config: DumpConfig,
    font: Font,
    unicode: Unicode,
    alphabet: set<nat>,
    canvasHeight: int)

  // ---------------------------------------------------------------------------
  // The alphabet table

  /** `_font_size_to_alphabet`: the baseline alphabets by font size. */
  function FontSizeToAlphabet(alphabet10: set<nat>, alphabet12: set<nat>): (table: map<int, set<nat>>)
    ensures table.Keys == AlphabetSizes
    ensures table[8] == {} && table[10] == alphabet10 && table[12] == alphabet12
  {
    map[8 := {}, 10 := alphabet10, 12 := alphabet12]
  }

  /** `_get_ark_pixel_alphabet`: the set of code points in a font's character map. */
  method ArkPixelAlphabet(cmap: seq<CmapEntry>) returns (alphabet: set<nat>)
    ensures forall cp :: cp in alphabet <==> exists i :: 0 <= i < |cmap| && cmap[i].codePoint == cp
  {
    alphabet := {};
    for i := 0 to |cmap|
      invariant alphabet == set j | 0 <= j < i :: cmap[j].codePoint
    {
      alphabet := alphabet + {cmap[i].codePoint};
    }
  }

  // ---------------------------------------------------------------------------
  // Canvas arithmetic

  /** `k` is at least the rational number `n / d` (for a non-zero `d`). */
  predicate AtLeastRatio(k: int, n: int, d: int) {
    if d > 0 then k * d >= n else k * d <= n
  }

  /** The ceiling of the rational number `n / d`. */
  function CeilDiv(n: int, d: int): int
    requires d != 0
  {
    if d > 0 then -((-n) / d) else -(n / -d)
  }

  /** `CeilDiv(n, d)` is at least `n / d`, and one less is not. */
  lemma CeilDivBounds(n: int, d: int)
    requires d != 0
    ensures AtLeastRatio(CeilDiv(n, d), n, d) && !AtLeastRatio(CeilDiv(n, d) - 1, n, d)
  {
    if d > 0 {
      var q := (-n) / d;
      assert -n == d * q + (-n) % d;
      assert -q * d == n + (-n) % d;
    } else {
      var q := n / (-d);
      assert n == (-d) * q + n % (-d);
      assert -q * d == q * (-d) == n - n % (-d);
    }
  }

  /** No integer below `CeilDiv(n, d)` is at least `n / d`. */
  lemma CeilDivIsLeast(n: int, d: int, k: int)
    requires d != 0 && AtLeastRatio(k, n, d)
    ensures CeilDiv(n, d) <= k
  {
    CeilDivBounds(n, d);
  }

  /** Height of the glyph's font box scaled to the rasterisation size, rounded up. */
  function BoxHeight(font: Font, config: DumpConfig): int
    requires font.unitsPerEm != 0
  {
    CeilDiv((font.ascent - font.descent) * config.rasterizeSize, font.unitsPerEm)
  }

  /** The canvas height shared by every glyph of a font: the box height, raised
      by one if needed to give it the parity of the font size. */
  function CanvasHeight(font: Font, config: DumpConfig): (h: int)
    requires font.unitsPerEm != 0
    ensures (h - config.fontSize) % 2 == 0
    ensures h == BoxHeight(font, config) || h == BoxHeight(font, config) + 1
    ensures AtLeastRatio(h, (font.ascent - font.descent) * config.rasterizeSize, font.unitsPerEm)
  {
    CeilDivBounds((font.ascent - font.descent) * config.rasterizeSize, font.unitsPerEm);
    var h := BoxHeight(font, config);
    if (h - config.fontSize) % 2 != 0 then
      assert AtLeastRatio(h + 1, (font.ascent - font.descent) * config.rasterizeSize, font.unitsPerEm) by {
        if font.unitsPerEm > 0 {
          assert (h + 1) * font.unitsPerEm == h * font.unitsPerEm + font.unitsPerEm;
        } else {
          assert (h + 1) * font.unitsPerEm == h * font.unitsPerEm + font.unitsPerEm;
        }
      }
      h + 1
    else h
  }

  /** No smaller canvas both holds the scaled box and has the parity of the font size. */
  lemma CanvasHeightIsLeast(font: Font, config: DumpConfig, k: int)
    requires font.unitsPerEm != 0
    requires AtLeastRatio(k, (font.ascent - font.descent) * config.rasterizeSize, font.unitsPerEm)
    requires (k - config.fontSize) % 2 == 0
    ensures CanvasHeight(font, config) <= k
  {
    CeilDivIsLeast((font.ascent - font.descent) * config.rasterizeSize, font.unitsPerEm, k);
  }

  /** Advance width of a glyph scaled to the rasterisation size, rounded up. */
  function GlyphWidth(font: Font, config: DumpConfig, advance: int): int
    requires font.unitsPerEm != 0
  {
    CeilDiv(advance * config.rasterizeSize, font.unitsPerEm)
  }

  function Min(a: int, b: int): int {
    if a <= b then a else b
  }

  /** The canvas width: too wide a glyph is cut to the font size, except in the Private Use Area. */
  function ClampWidth(width: int, fontSize: int, block: Block): (w: int)
    ensures block.codeStart == PrivateUseAreaStart ==> w == width
    ensures block.codeStart != PrivateUseAreaStart ==> w == Min(width, fontSize)
  {
    if width > fontSize && block.codeStart != PrivateUseAreaStart then fontSize else width
  }

  // ---------------------------------------------------------------------------
  // File naming

  /** `SSSS-EEEE <name>`: the directory of one Unicode block. For a block of the
      Basic Multilingual Plane both bounds read back from their four-digit fields. */
  function BlockDirName(block: Block): (d: string)
    ensures d != [] && d[0] != '/'
    ensures block.codeStart < 0x1_0000 && block.codeEnd < 0x1_0000 ==>
      && |d| == 10 + |block.name|
      && ParseHex(d[..4]) == Some(block.codeStart) && d[4] == '-'
      && ParseHex(d[5..9]) == Some(block.codeEnd) && d[9] == ' '
      && d[10..] == block.name
  {
    var start := Hex04(block.codeStart);
    var end := Hex04(block.codeEnd);
    var d := start + "-" + end + " " + block.name;
    assert IsUpperHexDigit(start[0]);
    if block.codeStart < 0x1_0000 && block.codeEnd < 0x1_0000 then
      Hex04Width(block.codeStart);
      Hex04Width(block.codeEnd);
      Hex04RoundTrip(block.codeStart);
      Hex04RoundTrip(block.codeEnd);
      BlockDirFields(start, end, block.name);
      d
    else d
  }

  /** Where the fields of `SSSS-EEEE <name>` sit, for four-character bounds. */
  lemma BlockDirFields(start: string, end: string, name: string)
    requires |start| == 4 && |end| == 4
    ensures var d := start + "-" + end + " " + name;
      && |d| == 10 + |name| && d[..4] == start && d[4] == '-'
      && d[5..9] == end && d[9] == ' ' && d[10..] == name
  {
    var d := start + "-" + end + " " + name;
    assert d[..4] == start;
    assert d[5..9] == end;
    assert d[10..] == name;
  }

  /** `<hex>.png`: the file name of one code point's bitmap. */
  function GlyphFileName(codePoint: nat): (name: string)
    ensures name != [] && '/' !in name
  {
    var hex := Hex04(codePoint);
    assert forall i :: 0 <= i < |hex| ==> hex[i] != '/';
    hex + ".png"
  }

  function GlyphPath(dumpDir: string, block: Block, codePoint: nat): string {
    Join(Join(dumpDir, BlockDirName(block)), GlyphFileName(codePoint))
  }

  /** Reads a code point back from a bitmap file name. */
  function ParseGlyphFileName(name: string): Option<nat> {
    if |name| >= 4 && name[|name| - 4..] == ".png" then ParseHex(name[..|name| - 4]) else None
  }

  /** The code point can be read back from the last component of its bitmap's path. */
  lemma GlyphPathRoundTrip(dumpDir: string, block: Block, codePoint: nat)
    ensures ParseGlyphFileName(BaseName(GlyphPath(dumpDir, block, codePoint))) == Some(codePoint)
  {
    var name := GlyphFileName(codePoint);
    BaseNameOfJoin(Join(dumpDir, BlockDirName(block)), name);
    assert name[..|name| - 4] == Hex04(codePoint);
    Hex04RoundTrip(codePoint);
  }

  /** A bitmap lies directly inside its block's directory, which lies directly
      inside the dump directory: the path is the dump directory (with a separator
      unless it is empty or already ends in one), the block directory, a separator
      (unless the block name already ends in one) and the file name. */
  lemma GlyphPathInBlockDir(dumpDir: string, block: Block, codePoint: nat)
    ensures var dirSep := if dumpDir == [] || dumpDir[|dumpDir| - 1] == '/' then "" else "/";
      var blockSep := if block.name != [] && block.name[|block.name| - 1] == '/' then "" else "/";
      GlyphPath(dumpDir, block, codePoint) == dumpDir + dirSep + BlockDirName(block) + blockSep + GlyphFileName(codePoint)
  {
    var dir := BlockDirName(block);
    var name := GlyphFileName(codePoint);
    var hex := Hex04(codePoint);
    assert IsUpperHexDigit(hex[0]);
    assert name[0] == hex[0];
    assert dir[|dir| - 1] == (if block.name == [] then ' ' else block.name[|block.name| - 1]);
  }

  /** Different code points never share a bitmap path, whatever their blocks. */
  lemma GlyphPathInjective(dir1: string, block1: Block, cp1: nat, dir2: string, block2: Block, cp2: nat)
    requires GlyphPath(dir1, block1, cp1) == GlyphPath(dir2, block2, cp2)
    ensures cp1 == cp2
  {
    GlyphPathRoundTrip(dir1, block1, cp1);
    GlyphPathRoundTrip(dir2, block2, cp2);
  }

  // ---------------------------------------------------------------------------
  // The dump, as a specification

  /** What the dump does with one character-map entry. */
  function DumpStep(run: DumpRun, entry: CmapEntry): Step
    requires run.font.unitsPerEm != 0
  {
    var cp := entry.codePoint;
    if !run.unicode.isPrintable(cp) then Skipped
    else if run.config.name != ArkPixelName && cp in run.alphabet then Skipped
    else if entry.glyphName !in run.font.advanceWidths then Aborted(MissingMetrics(entry.glyphName))
    else
      var width := GlyphWidth(run.font, run.config, run.font.advanceWidths[entry.glyphName]);
      if width <= 0 then Skipped
      else
        match run.unicode.blockOf(cp)
        case None => Aborted(NoBlock(cp))
        case Some(block) =>
          Dumped(GlyphFile(cp, ClampWidth(width, run.config.fontSize, block), run.canvasHeight,
                           GlyphPath(run.config.dumpDir, block, cp)))
  }

  /** The bitmaps written for `entries`, in order, or the error that stopped the dump. */
  function DumpEntries(run: DumpRun, entries: seq<CmapEntry>): Result<seq<GlyphFile>, DumpError>
    requires run.font.unitsPerEm != 0
    decreases |entries|
  {
    if entries == [] then Success([])
    else
      match DumpEntries(run, entries[..|entries| - 1])
      case Failure(e) => Failure(e)
      case Success(files) =>
        match DumpStep(run, entries[|entries| - 1])
        case Skipped => Success(files)
        case Dumped(f) => Success(files + [f])
        case Aborted(e) => Failure(e)
  }

  /** `dump_font` as a function of its inputs. */
  function DumpPlan(config: DumpConfig, font: Font, unicode: Unicode, alphabet10: set<nat>, alphabet12: set<nat>)
    : (r: Result<seq<GlyphFile>, DumpError>)
    ensures font.unitsPerEm == 0 ==> r == Failure(ZeroUnitsPerEm)
    ensures font.unitsPerEm != 0 && config.fontSize !in AlphabetSizes ==> r == Failure(UnknownFontSize(config.fontSize))
  {
    if font.unitsPerEm == 0 then Failure(ZeroUnitsPerEm)
    else
      var table := FontSizeToAlphabet(alphabet10, alphabet12);
      if config.fontSize !in table then Failure(UnknownFontSize(config.fontSize))
      else DumpEntries(DumpRun(config, font, unicode, table[config.fontSize], CanvasHeight(font, config)), font.cmap)
  }

  /** One more entry of the character map: the dump so far, then that entry's step. */
  lemma DumpEntriesPrefix(run: DumpRun, entries: seq<CmapEntry>, i: nat)
    requires run.font.unitsPerEm != 0 && i < |entries|
    ensures DumpEntries(run, entries[..i + 1]) ==
              match DumpEntries(run, entries[..i])
              case Failure(e) => Failure(e)
              case Success(files) =>
                match DumpStep(run, entries[i])
                case Skipped => Success(files)
                case Dumped(f) => Success(files + [f])
                case Aborted(e) => Failure(e)
  {
    assert entries[..i + 1][..i] == entries[..i];
  }

  // ---------------------------------------------------------------------------
  // The dump, step by step

  /** `dump_font`: computes the canvas height once, then walks the character map. */
  method DumpFont(config: DumpConfig, font: Font, unicode: Unicode, alphabet10: set<nat>, alphabet12: set<nat>)
    returns (r: Result<seq<GlyphFile>, DumpError>)
    ensures r == DumpPlan(config, font, unicode, alphabet10, alphabet12)
  {
    if font.unitsPerEm == 0 {
      return Failure(ZeroUnitsPerEm);
    }
    var canvasHeight := CeilDiv((font.ascent - font.descent) * config.rasterizeSize, font.unitsPerEm);
    if (canvasHeight - config.fontSize) % 2 != 0 {
      canvasHeight := canvasHeight + 1;
    }
    var table := FontSizeToAlphabet(alphabet10, alphabet12);
    if config.fontSize !in table {
      return Failure(UnknownFontSize(config.fontSize));
    }
    var alphabet := table[config.fontSize];
    ghost var run := DumpRun(config, font, unicode, alphabet, canvasHeight);
    assert canvasHeight == CanvasHeight(font, config);
    assert DumpPlan(config, font, unicode, alphabet10, alphabet12) == DumpEntries(run, font.cmap);
    var files: seq<GlyphFile> := [];
    for i := 0 to |font.cmap|
      invariant DumpEntries(run, font.cmap[..i]) == Success(files)
    {
      DumpEntriesPrefix(run, font.cmap, i);
      var entry := font.cmap[i];
      var codePoint := entry.codePoint;
      if !unicode.isPrintable(codePoint) {
        continue;
      }
      if config.name != ArkPixelName && codePoint in alphabet {
        continue;
      }
      var block := unicode.blockOf(codePoint);
      if entry.glyphName !in font.advanceWidths {
        DumpEntriesAbortPersists(run, font.cmap, i + 1);
        return Failure(MissingMetrics(entry.glyphName));
      }
      var canvasWidth := CeilDiv(font.advanceWidths[entry.glyphName] * config.rasterizeSize, font.unitsPerEm);
      if canvasWidth <= 0 {
        continue;
      }
      if block.None? {
        DumpEntriesAbortPersists(run, font.cmap, i + 1);
        return Failure(NoBlock(codePoint));
      }
      if canvasWidth > config.fontSize && block.value.codeStart != PrivateUseAreaStart {
        canvasWidth := config.fontSize;
      }
      var path := GlyphPath(config.dumpDir, block.value, codePoint);
      assert DumpStep(run, entry) == Dumped(GlyphFile(codePoint, canvasWidth, canvasHeight, path));
      files := files + [GlyphFile(codePoint, canvasWidth, canvasHeight, path)];
    }
    assert font.cmap[..|font.cmap|] == font.cmap;
    return Success(files);
  }

  // ---------------------------------------------------------------------------
  // Properties of the dump

  /** Once a prefix of the character map aborts, the whole dump aborts with the same error. */
  lemma {:induction false} DumpEntriesAbortPersists(run: DumpRun, entries: seq<CmapEntry>, k: nat)
    requires run.font.unitsPerEm != 0
    requires k <= |entries| && DumpEntries(run, entries[..k]).Failure?
    ensures DumpEntries(run, entries) == DumpEntries(run, entries[..k])
    decreases |entries|
  {
    if k < |entries| {
      var init := entries[..|entries| - 1];
      assert init[..k] == entries[..k];
      DumpEntriesAbortPersists(run, init, k);
    } else {
      assert entries[..k] == entries;
    }
  }

  /** What a dumped entry's bitmap is. */
  lemma DumpStepFacts(run: DumpRun, entry: CmapEntry)
    requires run.font.unitsPerEm != 0 && DumpStep(run, entry).Dumped?
    ensures var f := DumpStep(run, entry).file;
      && f.codePoint == entry.codePoint
      && run.unicode.isPrintable(f.codePoint)
      && (run.config.name != ArkPixelName ==> f.codePoint !in run.alphabet)
      && f.height == run.canvasHeight
      && entry.glyphName in run.font.advanceWidths
      && var w := GlyphWidth(run.font, run.config, run.font.advanceWidths[entry.glyphName]);
      && 0 < w
      && run.unicode.blockOf(f.codePoint).Some?
      && var block := run.unicode.blockOf(f.codePoint).value;
      && f.path == GlyphPath(run.config.dumpDir, block, f.codePoint)
      && f.width == ClampWidth(w, run.config.fontSize, block)
  {
  }

  /** The dump succeeds exactly when no entry aborts it. */
  lemma {:induction false} DumpEntriesSucceeds(run: DumpRun, entries: seq<CmapEntry>)
    requires run.font.unitsPerEm != 0
    ensures DumpEntries(run, entries).Success? <==>
              forall i :: 0 <= i < |entries| ==> !DumpStep(run, entries[i]).Aborted?
    decreases |entries|
  {
    if entries != [] {
      var init := entries[..|entries| - 1];
      var last := entries[|entries| - 1];
      DumpEntriesSucceeds(run, init);
      assert forall i :: 0 <= i < |init| ==> init[i] == entries[i];
      if DumpEntries(run, init).Success? && !DumpStep(run, last).Aborted? {
        assert DumpEntries(run, entries).Success?;
      }
    }
  }

  /** Every bitmap written comes from one entry of the character map. */
  lemma {:induction false} DumpEntriesSound(run: DumpRun, entries: seq<CmapEntry>, f: GlyphFile)
    requires run.font.unitsPerEm != 0
    requires DumpEntries(run, entries).Success? && f in DumpEntries(run, entries).value
    ensures exists i :: 0 <= i < |entries| && DumpStep(run, entries[i]) == Dumped(f)
    decreases |entries|
  {
    var init := entries[..|entries| - 1];
    var last := entries[|entries| - 1];
    var files := DumpEntries(run, init).value;
    var step := DumpStep(run, last);
    if f in files {
      DumpEntriesSound(run, init, f);
      var i :| 0 <= i < |init| && DumpStep(run, init[i]) == Dumped(f);
      assert init[i] == entries[i];
    } else {
      assert step == Dumped(f);
      assert entries[|entries| - 1] == last;
    }
  }

  /** The last entry's bitmap, when it has one, ends the written sequence. */
  lemma DumpEntriesLast(run: DumpRun, entries: seq<CmapEntry>)
    requires run.font.unitsPerEm != 0
    requires entries != [] && DumpEntries(run, entries).Success?
    ensures DumpEntries(run, entries[..|entries| - 1]).Success?
    ensures var prev := DumpEntries(run, entries[..|entries| - 1]).value;
            var step := DumpStep(run, entries[|entries| - 1]);
            && !step.Aborted?
            && DumpEntries(run, entries).value == if step.Dumped? then prev + [step.file] else prev
  {
  }

  /** Every entry that is dumped has its bitmap written. */
  lemma {:induction false} DumpEntriesComplete(run: DumpRun, entries: seq<CmapEntry>, i: nat)
    requires run.font.unitsPerEm != 0
    requires DumpEntries(run, entries).Success?
    requires i < |entries| && DumpStep(run, entries[i]).Dumped?
    ensures DumpStep(run, entries[i]).file in DumpEntries(run, entries).value
    decreases |entries|
  {
    var init := entries[..|entries| - 1];
    DumpEntriesLast(run, entries);
    if i < |init| {
      assert init[i] == entries[i];
      DumpEntriesComplete(run, init, i);
    }
  }

  /** The code points of the written bitmaps come from the entries, without repeats
      when the character map has none. */
  lemma {:induction false} DumpEntriesDistinct(run: DumpRun, entries: seq<CmapEntry>)
    requires run.font.unitsPerEm != 0
    requires forall i, j :: 0 <= i < j < |entries| ==> entries[i].codePoint != entries[j].codePoint
    requires DumpEntries(run, entries).Success?
    ensures forall i, j :: 0 <= i < j < |DumpEntries(run, entries).value| ==>
              DumpEntries(run, entries).value[i].codePoint != DumpEntries(run, entries).value[j].codePoint
    decreases |entries|
  {
    if entries != [] {
      var init := entries[..|entries| - 1];
      var last := entries[|entries| - 1];
      DumpEntriesDistinct(run, init);
      var files := DumpEntries(run, init).value;
      if DumpStep(run, last).Dumped? {
        forall k | 0 <= k < |files|
          ensures files[k].codePoint != last.codePoint
        {
          DumpEntriesSound(run, init, files[k]);
          var i :| 0 <= i < |init| && DumpStep(run, init[i]) == Dumped(files[k]);
          assert init[i] == entries[i];
        }
      }
    }
  }

  /** The run `DumpPlan` performs once the size lookup has succeeded. */
  function PlanRun(config: DumpConfig, font: Font, unicode: Unicode, alphabet10: set<nat>, alphabet12: set<nat>): DumpRun
    requires font.unitsPerEm != 0 && config.fontSize in AlphabetSizes
  {
    DumpRun(config, font, unicode, FontSizeToAlphabet(alphabet10, alphabet12)[config.fontSize], CanvasHeight(font, config))
  }

  /** Every bitmap written: printable, not in the baseline alphabet (for any font
      but the reference one), of the shared canvas height, of positive width, and
      no wider than the font size outside the Private Use Area. */
  lemma DumpedGlyphs(config: DumpConfig, font: Font, unicode: Unicode, alphabet10: set<nat>, alphabet12: set<nat>, files: seq<GlyphFile>)
    requires DumpPlan(config, font, unicode, alphabet10, alphabet12) == Success(files)
    ensures font.unitsPerEm != 0 && config.fontSize in AlphabetSizes
    ensures forall f :: f in files ==> unicode.isPrintable(f.codePoint)
    ensures config.name != ArkPixelName ==>
              forall f :: f in files ==> f.codePoint !in FontSizeToAlphabet(alphabet10, alphabet12)[config.fontSize]
    ensures forall f :: f in files ==> f.height == CanvasHeight(font, config)
    ensures forall f :: f in files ==> 0 < f.width
    ensures forall f :: (f in files && unicode.blockOf(f.codePoint).Some? &&
              unicode.blockOf(f.codePoint).value.codeStart != PrivateUseAreaStart) ==> f.width <= config.fontSize
  {
    var run := PlanRun(config, font, unicode, alphabet10, alphabet12);
    forall f | f in files
      ensures unicode.isPrintable(f.codePoint)
      ensures config.name != ArkPixelName ==> f.codePoint !in run.alphabet
      ensures f.height == CanvasHeight(font, config) && 0 < f.width
      ensures (unicode.blockOf(f.codePoint).Some? &&
               unicode.blockOf(f.codePoint).value.codeStart != PrivateUseAreaStart) ==> f.width <= config.fontSize
    {
      DumpEntriesSound(run, font.cmap, f);
      var i :| 0 <= i < |font.cmap| && DumpStep(run, font.cmap[i]) == Dumped(f);
      DumpStepFacts(run, font.cmap[i]);
    }
  }

  /** A written bitmap's width is its scaled advance width, cut to the font size
      unless its block is the Private Use Area, and its path names its block and
      code point. */
  lemma DumpedGlyphWidth(config: DumpConfig, font: Font, unicode: Unicode, alphabet10: set<nat>, alphabet12: set<nat>,
                         files: seq<GlyphFile>, f: GlyphFile)
    requires DumpPlan(config, font, unicode, alphabet10, alphabet12) == Success(files)
    requires f in files
    ensures font.unitsPerEm != 0 && unicode.blockOf(f.codePoint).Some?
    ensures exists i :: 0 <= i < |font.cmap| && font.cmap[i].codePoint == f.codePoint &&
              font.cmap[i].glyphName in font.advanceWidths &&
              var w := GlyphWidth(font, config, font.advanceWidths[font.cmap[i].glyphName]);
              var block := unicode.blockOf(f.codePoint).value;
              && f.path == GlyphPath(config.dumpDir, block, f.codePoint)
              && (block.codeStart == PrivateUseAreaStart ==> f.width == w)
              && (block.codeStart != PrivateUseAreaStart ==> f.width == Min(w, config.fontSize))
  {
    var run := PlanRun(config, font, unicode, alphabet10, alphabet12);
    DumpEntriesSound(run, font.cmap, f);
    var i :| 0 <= i < |font.cmap| && DumpStep(run, font.cmap[i]) == Dumped(f);
    DumpStepFacts(run, font.cmap[i]);
  }

  /** Every eligible entry is dumped: a printable code point outside the alphabet
      (or any printable one, for the reference font) with a positive width. */
  lemma DumpedGlyphsComplete(config: DumpConfig, font: Font, unicode: Unicode, alphabet10: set<nat>, alphabet12: set<nat>, files: seq<GlyphFile>, i: nat)
    requires DumpPlan(config, font, unicode, alphabet10, alphabet12) == Success(files)
    requires i < |font.cmap|
    requires unicode.isPrintable(font.cmap[i].codePoint)
    requires config.name == ArkPixelName || font.cmap[i].codePoint !in FontSizeToAlphabet(alphabet10, alphabet12)[config.fontSize]
    requires font.unitsPerEm != 0 && font.cmap[i].glyphName in font.advanceWidths
    requires GlyphWidth(font, config, font.advanceWidths[font.cmap[i].glyphName]) > 0
    ensures exists f :: f in files && f.codePoint == font.cmap[i].codePoint
  {
    var run := PlanRun(config, font, unicode, alphabet10, alphabet12);
    DumpEntriesSucceeds(run, font.cmap);
    var step := DumpStep(run, font.cmap[i]);
    assert !step.Aborted?;
    assert step.Dumped?;
    DumpEntriesComplete(run, font.cmap, i);
  }

  /** With a character map free of repeats, no two bitmaps share a path: nothing is overwritten. */
  lemma DumpedPathsDistinct(config: DumpConfig, font: Font, unicode: Unicode, alphabet10: set<nat>, alphabet12: set<nat>, files: seq<GlyphFile>)
    requires DumpPlan(config, font, unicode, alphabet10, alphabet12) == Success(files)
    requires forall i, j :: 0 <= i < j < |font.cmap| ==> font.cmap[i].codePoint != font.cmap[j].codePoint
    ensures forall i, j :: 0 <= i < j < |files| ==> files[i].path != files[j].path
  {
    var run := PlanRun(config, font, unicode, alphabet10, alphabet12);
    DumpEntriesDistinct(run, font.cmap);
    forall i, j | 0 <= i < j < |files|
      ensures files[i].path != files[j].path
    {
      DumpEntriesSound(run, font.cmap, files[i]);
      var ki :| 0 <= ki < |font.cmap| && DumpStep(run, font.cmap[ki]) == Dumped(files[i]);
      DumpStepFacts(run, font.cmap[ki]);
      DumpEntriesSound(run, font.cmap, files[j]);
      var kj :| 0 <= kj < |font.cmap| && DumpStep(run, font.cmap[kj]) == Dumped(files[j]);
      DumpStepFacts(run, font.cmap[kj]);
      var bi := unicode.blockOf(files[i].codePoint).value;
      var bj := unicode.blockOf(files[j].codePoint).value;
      if files[i].path == files[j].path {
        GlyphPathInjective(config.dumpDir, bi, files[i].codePoint, config.dumpDir, bj, files[j].codePoint);
      }
    }
  }

  /** Two runs whose steps agree on every entry write the same bitmaps. */
  lemma {:induction false} DumpEntriesAgree(run1: DumpRun, run2: DumpRun, entries: seq<CmapEntry>)
    requires run1.font.unitsPerEm != 0 && run2.font.unitsPerEm != 0
    requires forall i :: 0 <= i < |entries| ==> DumpStep(run1, entries[i]) == DumpStep(run2, entries[i])
    ensures DumpEntries(run1, entries) == DumpEntries(run2, entries)
    decreases |entries|
  {
    if entries != [] {
      var init := entries[..|entries| - 1];
      assert forall i :: 0 <= i < |init| ==> init[i] == entries[i];
      DumpEntriesAgree(run1, run2, init);
    }
  }

  /** The reference font never consults the contents of the alphabet. */
  lemma ArkPixelIgnoresAlphabet(config: DumpConfig, font: Font, unicode: Unicode,
                                alphabet10: set<nat>, alphabet12: set<nat>, other10: set<nat>, other12: set<nat>)
    requires config.name == ArkPixelName
    ensures DumpPlan(config, font, unicode, alphabet10, alphabet12) == DumpPlan(config, font, unicode, other10, other12)
  {
    if font.unitsPerEm != 0 && config.fontSize in AlphabetSizes {
      var h := CanvasHeight(font, config);
      var run1 := DumpRun(config, font, unicode, FontSizeToAlphabet(alphabet10, alphabet12)[config.fontSize], h);
      var run2 := DumpRun(config, font, unicode, FontSizeToAlphabet(other10, other12)[config.fontSize], h);
      DumpEntriesAgree(run1, run2, font.cmap);
    }
  }

  /** At size 8 the alphabet is empty, so the name of the font makes no difference. */
  lemma SizeEightIgnoresName(config: DumpConfig, font: Font, unicode: Unicode, alphabet10: set<nat>, alphabet12: set<nat>, name: string)
    requires config.fontSize == 8
    ensures DumpPlan(config, font, unicode, alphabet10, alphabet12) == DumpPlan(config.(name := name), font, unicode, alphabet10, alphabet12)
  {
    if font.unitsPerEm != 0 {
      var h := CanvasHeight(font, config);
      assert h == CanvasHeight(font, config.(name := name));
      var run1 := DumpRun(config, font, unicode, {}, h);
      var run2 := DumpRun(config.(name := name), font, unicode, {}, h);
      DumpEntriesAgree(run1, run2, font.cmap);
    }
  }
}
