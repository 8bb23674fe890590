# Glyph dumping and asset version pinning of fusion-pixel-font, in Dafny

This project models two pieces of decision logic from the fusion-pixel-font
build scripts and proves what they promise.

- **Glyph dumping** (`services/dump_service.py`, module `DumpService`).
  `dump_font` walks a reference font's best character map. It writes one
  bitmap per eligible code point into `<dump dir>/SSSS-EEEE <block name>/<HEX>.png`.
  Every bitmap uses one canvas height per font, and that height has the same
  parity as the font size. Code points that are not printable are skipped.
  For any font other than `ark-pixel`, code points already in the baseline
  alphabet for that size are skipped too. So are glyphs whose scaled advance
  width is not positive. Widths are cut to the font size, except in the
  Private Use Area block (which starts at 0xE000). The method `DumpFont`
  follows the source loop step by step. It is proved equal to the
  specification `DumpPlan`, and the lemmas state the properties of `DumpPlan`.
  Two small modules support it:
  - `HexFormat` models `f'{n:04X}'` and parses it back.
  - `Paths` models `os.path.join` as `posixpath` computes it. It also
    defines a `posixpath.basename`, which the code never calls; it serves
    only to state that a bitmap's file name reads back as its code point.
- **Version pinning** (`services/update_service.py`, module `UpdateService`).
  - `GetGithubTagSha` models the tag search, a first-match linear scan.
  - `ResolveGlyphsVersion` models the TAG / BRANCH / COMMIT dispatch of
    `update_glyphs_version` and the record it writes.
  - `GlyphAssets` holds the two `version.json` files as fields. Its methods
    `UpdateGlyphsVersion` and `SetupGlyphs` update them in place. The second
    one is the "already up to date" sha check of `setup_glyphs`.
  - `UpdateFonts` models how `update_fonts` derives the version and URLs,
    and its download-unless-cached loop.

The GitHub API is an input value (`GitHub`). A map entry stands for a
successful response, and a missing entry for a failed request. The Unicode
database (`str.isprintable`, the block lookup) is an input too (`Unicode`).
So is the parsed font (`Font`: ascent, descent, unitsPerEm, the cmap in
iteration order, the advance widths). The two baseline alphabets for sizes 10
and 12 are also inputs.

Two details of the code are worth knowing:

- `dump_font` writes into `dump_config.dump_dir/<block>/<hex>.png`. The
  dump directory is an input here.
- With no installed record, `setup_glyphs` compares `None == sha`. A COMMIT
  source with no `source_name` pins the sha `None` (JSON null), so in that
  case setup is skipped. `NeedsSetup` states this exactly: with no installed
  record, setup runs iff the pinned sha is a string.

## Model

| member | source | states |
|---|---|---|
| `DumpService.FontSizeToAlphabet` | services/dump_service.py:24-28 | the alphabet table has exactly the sizes 8, 10 and 12, and size 8 maps to the empty set |
| `DumpService.ArkPixelAlphabet` | services/dump_service.py:15-21 | the alphabet built by the loop holds exactly the code points of the font's character map |
| `DumpService.CeilDivBounds` | services/dump_service.py:35 | the rounded-up scaled value is the least integer at least the rational quotient, for either sign of unitsPerEm |
| `DumpService.CanvasHeight` | services/dump_service.py:35-37 | the canvas height minus the font size is even; the height is the rounded-up box height or one more, and it holds the scaled box |
| `DumpService.CanvasHeightIsLeast` | services/dump_service.py:35-37 | no smaller height both holds the scaled box and has the font size's parity |
| `DumpService.ClampWidth` | services/dump_service.py:51-52 | the width is unchanged in the Private Use Area block (start 0xE000), and is min(width, font size) in any other block |
| `DumpService.BlockDirName` | services/dump_service.py:58 | a block directory name is non-empty and relative; for a block below 0x10000 its first four characters read back as the block's start, the next four after `-` as its end, and the rest after a space is the block name |
| `DumpService.GlyphPathInBlockDir` | services/dump_service.py:58-60 | a bitmap's path is the dump directory, a separator, the block directory, a separator and the file name: the bitmap lies directly inside its block's directory |
| `DumpService.GlyphFileName` | services/dump_service.py:57-60 | a bitmap file name is non-empty and has no path separator |
| `DumpService.GlyphPathRoundTrip` | services/dump_service.py:57-60 | parsing the base name of a bitmap's path (upper-case hex plus `.png`) gives back its code point |
| `DumpService.GlyphPathInjective` | services/dump_service.py:57-60 | two bitmaps with the same path have the same code point, whatever their blocks or dump directories |
| `DumpService.DumpPlan` | services/dump_service.py:31-39 | a zero unitsPerEm aborts the dump; a font size other than 8, 10 or 12 aborts it at the alphabet lookup |
| `DumpService.DumpFont` | services/dump_service.py:31-64 | the step-by-step dump (height computed once, then the filtering loop over the cmap with its skips and aborts) writes exactly what `DumpPlan` specifies |
| `DumpService.DumpEntriesAbortPersists` | services/dump_service.py:40-63 | once an entry aborts the loop, the dump as a whole fails with that entry's error |
| `DumpService.DumpEntriesSucceeds` | services/dump_service.py:40-63 | the dump succeeds exactly when no cmap entry aborts it (missing advance width, or no block for a glyph of positive width) |
| `DumpService.DumpEntriesSound` | services/dump_service.py:40-63 | every written bitmap is the one some cmap entry produces |
| `DumpService.DumpEntriesComplete` | services/dump_service.py:40-63 | every cmap entry that produces a bitmap has it written |
| `DumpService.DumpEntriesDistinct` | services/dump_service.py:40-63 | written code points are pairwise distinct when the cmap's code points are |
| `DumpService.DumpedGlyphs` | services/dump_service.py:35-52 | every written bitmap is printable and has the shared canvas height and a positive width; a font other than `ark-pixel` writes no code point of the alphabet; outside the Private Use Area no width exceeds the font size |
| `DumpService.DumpedGlyphWidth` | services/dump_service.py:46-60 | a written width is the scaled advance width of its glyph, kept in the Private Use Area and cut to min(width, font size) elsewhere; its path names its block and code point |
| `DumpService.DumpedGlyphsComplete` | services/dump_service.py:40-63 | a printable code point with a positive width, outside the alphabet (or from `ark-pixel`), is always written |
| `DumpService.DumpedPathsDistinct` | services/dump_service.py:57-63 | with a cmap free of repeated code points, no two written bitmaps share a path |
| `DumpService.ArkPixelIgnoresAlphabet` | services/dump_service.py:39-45 | for `ark-pixel` the dump is the same whatever the alphabets contain |
| `DumpService.SizeEightIgnoresName` | services/dump_service.py:24-45 | at size 8 nothing is filtered as already covered, so the dump is the same whatever the font's name |
| `HexFormat.Hex04RoundTrip` | services/dump_service.py:57 | parsing `{n:04X}` gives back n |
| `HexFormat.Hex04Injective` | services/dump_service.py:57 | distinct code points have distinct `{n:04X}` renderings, and equal ones equal renderings |
| `HexFormat.Hex04Width` | services/dump_service.py:57 | code points below 0x10000 render in exactly four digits; larger ones are not padded and do not start with 0 |
| `HexFormat.ToHex` | services/dump_service.py:57 | the rendering is a non-empty string of upper-case hexadecimal digits |
| `Paths.Join` | services/dump_service.py:59-60 | joining an absolute component yields that component |
| `Paths.BaseNameOfJoin` | services/dump_service.py:59-60 | a component without a separator, joined onto any directory, is the base name of the result |
| `UpdateService.LatestReleaseTagName` | services/update_service.py:18-22 | the latest release's tag is found exactly when the API answers for the repository |
| `UpdateService.BranchLatestCommitSha` | services/update_service.py:36-40 | the branch head is found exactly when the API answers for the repository and branch |
| `UpdateService.FirstTagSha` | services/update_service.py:29-33 | the result is the commit of the first tag whose name equals the requested one, and none exactly when no tag has that name |
| `UpdateService.GetGithubTagSha` | services/update_service.py:25-33 | the search loop returns the first matching tag's commit, raises "not found" when none matches, and fails when the tag list request fails |
| `UpdateService.ResolveGlyphsVersion` | services/update_service.py:65-86 | COMMIT: sha and version are both the source name. BRANCH: the version is the branch name and the sha its head commit. TAG: the version is the configured tag (else the latest release tag) and the sha the first matching tag's commit, and it fails iff no tag matches. Any other type raises. The URLs are `https://github.com/{repo}/tree/{version}` and `https://github.com/{repo}/archive/{sha}.zip` |
| `UpdateService.GlyphAssets.UpdateGlyphsVersion` | services/update_service.py:65-89 | writes the resolved record to the pinned version file; on any error the pinned file is unchanged; the installed file is never touched |
| `UpdateService.NeedsSetup` | services/update_service.py:93-103 | setup runs iff the installed sha differs from the pinned sha; with no installed record iff the pinned sha is a string; never right after installing that record |
| `UpdateService.GlyphAssets.SetupGlyphs` | services/update_service.py:92-147 | a missing pinned file is an error; an installed sha equal to the pinned one returns with nothing changed; a differing pinned sha that is `None` fails when the download directory is joined with it, with nothing changed; otherwise, assuming every download and file operation succeeds, the pinned record becomes the installed one |
| `UpdateService.RemoveVersionPrefix` | services/update_service.py:157 | the version is the tag with one leading `v` removed iff it has one, and unchanged otherwise |
| `UpdateService.PlanFontsUpdate` | services/update_service.py:150-194 | assuming every download and file operation succeeds, the update succeeds exactly when a tag is configured or the latest release tag can be fetched. The tag is the configured one, else the latest release tag. The version record is `https://github.com/{repo}`, the tag with one leading `v` removed, and `{repo_url}/releases/tag/{tag}`. The assets are fetched into `<cache>/<repo>/<tag>` |
| `UpdateService.UpdateFonts` | services/update_service.py:150-197 | the step-by-step update (tag, version, repository URL, download loop, version record with `{repo_url}/releases/tag/{tag}`) computes exactly `PlanFontsUpdate` |
| `UpdateService.FetchAssetsPaths` | services/update_service.py:167-173 | each asset is cached at `<cache>/<repo>/<tag>/<file name with version>`; a downloaded one comes from `{repo_url}/releases/download/{tag}/{file name}` |
| `UpdateService.FetchAssetsCache` | services/update_service.py:167-175 | afterwards the cache holds what it held before plus every asset's path |
| `UpdateService.FetchAssetsDownloads` | services/update_service.py:167-175 | an asset is downloaded exactly when neither the cache nor an earlier asset of the same run already holds its path |

## Left out

- CeilDiv: `math.ceil` of a float expression (`x / unitsPerEm * rasterize_size`) is modelled as the exact rational ceiling of `x * rasterize_size / unitsPerEm`, so floating-point rounding is not captured.
- PlanFontsUpdate: a failed asset download (`assert response.ok` at lines 44-45), a failed zip extraction (lines 179-180) or a missing copy source (line 186) aborts `update_fonts`. The model assumes these succeed, so its success condition covers only the tag lookup.
- SetupGlyphs: the source deletes the installed glyphs directory (line 122) and writes the installed `version.json` only at line 146. A failed download, copy or removal in between leaves no installed record. The model assumes these file operations succeed.
- Paths.Join, Paths.BaseName: paths are POSIX paths, as `posixpath` treats them; Windows drive letters and `\` separators are not modelled.
- DumpFont: when the dump aborts part-way, the bitmaps already written before the abort are not part of the result; the model returns only the error.
- Font parsing (`TTFont`, `getBestCmap`, `hmtx`), `ImageFont`, rasterisation, drawing at `rasterize_offset`, image saving, directory creation and logging are I/O. The font and the Unicode database are inputs, and each written image is a `GlyphFile` record.
- The import-time loading of the alphabets from woff2 files is I/O. `ArkPixelAlphabet` models the set it builds from a character map.
- `chr(code_point)` raising for code points above 0x10FFFF is not modelled: a font's character map holds only valid code points.
- The HTTP requests, JSON (de)serialisation, streaming downloads and renames are I/O. So are zip extraction, `copytree`, the license copy, deleting and recreating directories, and the config-file move in `setup_glyphs` (lines 106-143). The GitHub answers are an input value. The version files are fields of `GlyphAssets`. The fonts' version record is part of `FontsUpdate`.
- The reassignment of the global font configuration list at the end of `setup_glyphs` (lines 144-145) is process state outside this model.
- In `update_fonts`, the `copy_list` copies and the unzip directories (lines 177-188) are file operations and are not modelled. Asset file names are templates made only of literal text and `{version}` fields; other `str.format` features are not modelled.
- The fallback merge (`DesignContext.fallback`) and font generation (`FontContext`) are not part of this model. Neither is `apply_fallback`, which `build.py` calls. They live in modules outside this model. `build.py` and `scripts/tasks/make_fonts.py` only orchestrate the pipeline.
