# Tenji P-Fab core, modelled in Dafny

Tenji P-Fab turns Japanese text into braille and then into printable braille plates. The user edits the
reading of each word. The editor flattens the words into one stream of braille cells. It breaks the
stream into lines without separating a prefix cell (dakuten, handakuten, yōon, number sign, foreign
sign) from the cell it modifies, and cuts the lines into plates. The exporter then writes a zip archive
holding:

- the original text;
- a guide sheet;
- one binary STL file per plate.

Each plate is a rounded slab with a reinforced hanging hole, the plate's braille page number and the
body lines. Every raised dot is a flattened dome. Past conversions and the settings live in a small
history store. Once a storage access fails, that store falls back to an in-memory mirror.

The model has one module per concern:

| module | models |
|---|---|
| `SeqUtil` | `Option` (an operation that raises), list concatenation, `min`/`max` |
| `Braille` | cells and their Unicode glyphs (`_dots_to_unicode`) |
| `Decimal` | `str(n)` and `f"{n:02d}"` |
| `Pagination` | `split_cells_with_rules`, and the plate comprehension `[lines[i:i+k] for i in range(0, len(lines), k)]` |
| `WordFlatten` | the three word-to-cell flattenings (earlier preview, current preview, export) |
| `Editor` | words to plates, for the two previews and the export |
| `LogBuffer` | `ListLogHandler` |
| `PlateLayout` | the plate's dimensions |
| `Mesh` | the triangle list and the mesh primitives: rounded slab with hole, reinforcing tube, dome dots, braille characters |
| `StlEncoding` | the binary STL bytes |
| `PlateStl` | `_create_plate_stl` |
| `Package` | page-number cells, the guide sheet's glyphs (`_generate_guide_html`), the archive's entries (`generate_package_from_plates`) and the legacy `generate_package` |
| `History` | `HistoryManager` |

The source's imperative parts are modelled imperatively:

- The triangle list is a class whose methods append to it. Each method is proved against a function
  that gives the triangles it adds.
- The log handler and the history manager are classes whose fields the methods update.
- Each loop of the source is a loop of the model, proved against a specification function: a `while` loop where the source advances its index by hand (`FormUnits`), a `for` loop elsewhere.

## Model

| member | source | states |
|---|---|---|
| Braille.DotsToUnicode | stl_generator.py:384-392 | the glyph of a cell lies in U+2800..U+283F |
| Braille.UnicodeRoundTrip | stl_generator.py:384-392 | decoding the glyph of a six-dot cell gives back its dots |
| Braille.UnicodeInjective | stl_generator.py:384-392 | two six-dot cells share a glyph iff they are equal |
| Decimal.NatToString | stl_generator.py:49 | `str(n)` is a non-empty digit string without a leading zero |
| Decimal.NatToStringRoundTrip | stl_generator.py:49 | reading `str(n)` back gives `n` |
| Decimal.NatToStringLength | stl_generator.py:49 | `str(n)` has `d` digits exactly when `10^(d-1) <= n < 10^d` (one digit for `n < 10`) |
| Decimal.Pad2Facts | stl_generator.py:41 | `{:02d}` gives at least two digits (exactly two below 10), reading back as `n` |
| Decimal.Pad2Injective | stl_generator.py:41 | distinct page numbers give distinct padded numerals |
| Pagination.Units | main.py:416-426 | every unit holds one or two cells |
| Pagination.UnitsConcat | main.py:416-426 | the units concatenate back to the cell stream |
| Pagination.UnitsClassified | main.py:411-426 | a two-cell unit starts with a prefix cell; a lone prefix cell only ends the stream |
| Pagination.PackIsGreedy | main.py:428-437 | the packing is greedy: no empty line, a line is over the width only when it is one unit, and the next unit never fits on the previous line |
| Pagination.GreedyUnique | main.py:428-437 | there is only one greedy grouping of a unit sequence |
| Pagination.LayoutFacts | main.py:406-437 | the lines concatenate to the input, none is empty, there are none iff the input is empty, and a line wider than the limit holds a single unit |
| Pagination.LayoutIsUniqueGreedy | main.py:406-437 | a grouping is greedy iff it is the one `split_cells_with_rules` builds |
| Pagination.UnitBoundariesPreserved | main.py:406-437 | no unit is split across lines: re-forming the units of any line gives that line's units |
| Pagination.FormUnits | main.py:416-426 | the unit-forming loop computes `Units` |
| Pagination.PackLines | main.py:428-437 | the packing loop computes the greedy grouping's lines |
| Pagination.SplitCellsWithRules | main.py:406-437 | the lines are the unique greedy layout, concatenate to the input and are non-empty |
| Pagination.Chunks | main.py:628 | runs of at most `n`, all but the last exactly `n` |
| Pagination.ChunksConcat | main.py:628 | the runs concatenate back to the input |
| Pagination.ChunksAreSlices | main.py:628 | run `k` is the slice `xs[k*n : k*n+n]` and the runs cover the input |
| Pagination.PlateSlices | main.py:628 | a zero step raises, a negative step gives no plates, a positive step gives consecutive slices concatenating to the lines |
| Pagination.PaginateFacts | main.py:627-628 | the plates give back the cell stream; there are none iff there are no cells |
| Pagination.NoPrefixIsFixedChunks | main.py:406-437 | without prefix cells the layout is fixed runs of `max_chars` cells |
| Pagination.ExampleFixedRuns | main.py:627-628 | 25 plain cells, width 10, 2 lines per plate: lines of 10, 10 and 5 on plates of 2 and 1 lines |
| Pagination.ExamplePrefixAtLineEnd | main.py:421-434 | a prefix unit that would straddle the line end moves whole to the next line |
| WordFlatten.Tagged | main.py:612-618 | a word's preview cells carry the word's index and spelling |
| WordFlatten.KeptBelow | main.py:605-608 | the kept indices name words that have cells |
| WordFlatten.KeptBelowComplete | main.py:605-608 | the kept indices increase and miss no word that has cells |
| WordFlatten.SpacedJoinFacts | main.py:610-622 | joining non-empty words gives separators only between words, tags naming the right word, and a non-empty stream |
| WordFlatten.PreviewWellSpaced | main.py:601-622 | the current preview never starts or ends with a separator nor has two in a row; its tags are faithful; it is empty iff every word is erased |
| WordFlatten.LegacyPreviewDoubleSpace | main.py:452-468 | the earlier preview shows two separators in a row around an erased word |
| WordFlatten.PreviewsAgreeWithoutErasedWords | main.py:452-468 | with no erased word the two previews coincide |
| WordFlatten.ExportVersusPreview | main.py:905-920 | the export is the preview's cells plus one trailing space cell exactly when the last word is erased and some word is not |
| WordFlatten.ExportTrailingSpace | main.py:914-915 | one word then an erased word: the export ends in a space cell the preview does not show |
| WordFlatten.ExportCorrectedMatchesPreview | main.py:914-915 | the corrected export ends in a word cell and agrees with the export whenever the last word has cells |
| WordFlatten.AppendTagged | main.py:612-618 | appends the word's tagged cells |
| WordFlatten.FlattenIndices | main.py:610-622 | the preview loop computes the spaced join of the chosen words |
| WordFlatten.LegacyPreviewCells | main.py:452-468 | the earlier preview's loop computes its specification |
| WordFlatten.PreviewCells | main.py:601-622 | the current preview's loop computes its specification, which is well spaced |
| WordFlatten.ExportCells | main.py:905-920 | the export loop computes its specification, the preview's cells plus the trailing space case |
| Editor.LegacyPreviewPlates | main.py:452-478 | non-positive settings fall back to 10 and 1; the plates give back the stream and hold 1..height lines |
| Editor.PreviewPlates | main.py:601-628 | the preview's plates; none iff the plate height is 0; they give back the stream |
| Editor.ExportPlates | main.py:905-928 | the export's plates; none iff the plate height is 0; they give back the export stream |
| Editor.ExportMatchesPreview | main.py:905-928 | export and preview plates agree when the last word has cells; the corrected export's plates always agree |
| Editor.ExportExtraLine | main.py:914-915 | a one-cell line width and an erased last word: the export has an extra line holding only a space cell |
| LogBuffer.Retained | main.py:15-21 | the buffer shows the last 500 messages, in order |
| LogBuffer.RetainedSnoc | main.py:17-20 | append, then drop the head when over 500, is the retained window of the longer history |
| LogBuffer.ListLogHandler.constructor | main.py:11-13 | the buffer starts empty |
| LogBuffer.ListLogHandler.Emit | main.py:15-21 | appends the newest record last, drops only the oldest when over 500, keeps the last 500 emitted; a formatting error leaves the buffer unchanged |
| PlateLayout.LeftSideWidth | stl_generator.py:79-80 | the left column is at least 15 mm and at least the page number's width, and equals one of them |
| PlateLayout.MaxLen | stl_generator.py:83-86 | the longest line length bounds every line and is attained (0 with no lines) |
| PlateLayout.MaxLineChars | stl_generator.py:83-86 | the loop computes the longest line length |
| PlateLayout.TotalHeight | stl_generator.py:91-95 | the plate is at least as high as the hole needs, and exactly that high iff it has no lines |
| PlateLayout.PageNumX | stl_generator.py:118-121 | the page number starts inside the margin, fits the left column and is centred in it |
| PlateLayout.LinesFitWidth | stl_generator.py:79-90 | every body line fits before the right margin and the longest reaches it |
| PlateLayout.LinesFitHeight | stl_generator.py:91-139 | every body line lies within the margins; the first touches the top, the last the bottom |
| PlateLayout.BottomLineOnPageNumberRow | stl_generator.py:118-139 | the last body line shares its centre row with the page number |
| PlateLayout.RingInsideLeftColumn | stl_generator.py:79-101 | the reinforcing ring lies inside the plate and the left column |
| PlateLayout.RingClearsPageNumberIff | stl_generator.py:91-118 | the ring clears the page number's row iff the plate has at least two lines |
| PlateLayout.PageNumberDotOverHole | stl_generator.py:91-131 | on a one-line plate numbered 1-9, the positions of dots 2, 4 and 5 of the first page-number cell lie inside the hole |
| PlateLayout.CorrectedTotalHeight | stl_generator.py:93-95 | the corrected height is never lower, always clears the page number, keeps the ring inside, and is unchanged from two lines up |
| Mesh.TriangleList.constructor | stl_generator.py:98 | the triangle list starts empty |
| Mesh.Arc | stl_generator.py:198-216 | a corner arc has `segments + 1` points |
| Mesh.AppendArc | stl_generator.py:200-202 | the arc loop appends the arc's points |
| Mesh.GenerateRoundedRectPath | stl_generator.py:198-216 | the outline is the four corner arcs in order, `4 (segments + 1)` points |
| Mesh.HolePoints | stl_generator.py:170-177 | one hole point per outline point |
| Mesh.ComputeHolePoints | stl_generator.py:170-177 | the projection loop computes the hole points |
| Mesh.SlabFacts | stl_generator.py:163-196 | the slab has 1056 triangles; up-facing ones lie on the top face, down-facing on the bottom, every vertex on one of the two |
| Mesh.AddPlateWithHole | stl_generator.py:163-196 | appends exactly the slab's triangles |
| Mesh.TubeFacts | stl_generator.py:218-237 | the tube has 192 triangles; up-facing ones lie on its top, every vertex at its base or top |
| Mesh.AddTube | stl_generator.py:218-237 | appends exactly the tube's triangles |
| Mesh.Ring | stl_generator.py:275-292 | a dome ring has 24 points |
| Mesh.BandsCount | stl_generator.py:282-325 | `n` bands of the dome hold `48 n` triangles |
| Mesh.DotCount | stl_generator.py:251-344 | a dot has 312 triangles |
| Mesh.DotLidAtHeight | stl_generator.py:326-344 | the top ring and the flat lid lie at the dot's full height |
| Mesh.MakeRing | stl_generator.py:275-292 | the ring loop computes ring `j` |
| Mesh.AppendBand | stl_generator.py:300-325 | appends the quads between two rings |
| Mesh.AppendCap | stl_generator.py:326-344 | appends the fan closing the top ring |
| Mesh.AddRing | stl_generator.py:282-325 | one ring step: returns ring `j` and appends band `j - 1` |
| Mesh.AddRings | stl_generator.py:282-325 | the ring loop appends every band and ends on the top ring |
| Mesh.AddDotMesh | stl_generator.py:251-344 | appends exactly one dot's triangles |
| Mesh.CharCount | stl_generator.py:239-249 | a character adds 312 triangles per raised dot |
| Mesh.AddDot | stl_generator.py:245-249 | appends the dot at offset `i`, centred half a diameter in |
| Mesh.AddBrailleChar | stl_generator.py:239-249 | appends one dot per raised dot, in dot order |
| StlEncoding.AsciiBytes | stl_generator.py:147 | one byte per character, with its code |
| StlEncoding.Header | stl_generator.py:147 | 80 bytes: the label, then zero bytes |
| StlEncoding.U32LE | stl_generator.py:150 | the count field is four bytes |
| StlEncoding.DecodeU32LE | stl_generator.py:150 | four bytes read as a value below 2^32 |
| StlEncoding.U32RoundTrip | stl_generator.py:150 | the count field reads back as the count |
| StlEncoding.U32Injective | stl_generator.py:150 | different counts give different fields |
| StlEncoding.Record | stl_generator.py:154-159 | a record is 50 bytes: a zero normal, the three packed vertices, two zero bytes |
| StlEncoding.Records | stl_generator.py:154-159 | 50 bytes per triangle |
| StlEncoding.RecordsAt | stl_generator.py:154-159 | triangle `k`'s record sits at byte `50 k` |
| StlEncoding.StlLayout | stl_generator.py:147-161 | the file is `84 + 50 n` bytes: header, count reading back as `n`, then record `k` at `84 + 50 k`; it raises iff `n >= 2^32` |
| StlEncoding.EncodeStl | stl_generator.py:147-161 | the byte-building loop computes the file |
| PlateStl.RowCount | stl_generator.py:127-131 | a row adds 312 triangles per raised dot |
| PlateStl.BodyCount | stl_generator.py:133-144 | the body adds 312 triangles per raised dot |
| PlateStl.PlateCount | stl_generator.py:55-161 | a plate has `1056 + 192 + 312 ×` (raised dots) triangles |
| PlateStl.PlateParts | stl_generator.py:97-144 | the plate's triangles are slab, tube, page number, body, in that order |
| PlateStl.AddRow | stl_generator.py:127-131 | appends each character of a row, `CHAR_PITCH` apart |
| PlateStl.AddBody | stl_generator.py:133-144 | appends each body line at its centre row |
| PlateStl.AddBase | stl_generator.py:97-115 | appends the slab and then the tube |
| PlateStl.AddPageNumber | stl_generator.py:117-131 | appends the page number, centred in the left column |
| PlateStl.BuildPlate | stl_generator.py:97-144 | appends exactly the plate's triangles |
| PlateStl.CreatePlateStl | stl_generator.py:55-161 | returns the STL file of the plate's triangles |
| Package.PageNumberCells | stl_generator.py:48-53 | the number sign, then one cell per decimal digit |
| Package.PageNumberLength | stl_generator.py:48-53 | the page number has one cell more than `n` has digits |
| Package.IntToBrailleDots | stl_generator.py:48-53 | the loop computes the page number's cells |
| Package.PageNumberPrintable | stl_generator.py:48-53 | page numbers only use printable cells |
| Package.LineDots | stl_generator.py:27 | a line's dot patterns, cell by cell |
| Package.PlateDots | stl_generator.py:25-28 | a plate's dot patterns, line by line |
| Package.PagesInfo | stl_generator.py:20-35 | one page record per plate |
| Package.PagesPrintable | stl_generator.py:20-35 | every page record can be embossed |
| Package.DrawRow | stl_generator.py:352 | the page number's glyphs, or a raise at the first cell with fewer than six dots |
| Package.DrawLine | stl_generator.py:360-363 | each cell's glyph and character, or a raise at the first short cell |
| Package.GenerateGuide | stl_generator.py:346-366 | the loop builds every plate's block in order, or raises at the first short cell |
| Package.GlyphReadsBack | stl_generator.py:384-392 | a glyph reads back as the first six dots of its cell |
| Package.GuideShowsCells | stl_generator.py:346-366 | each block carries its plate number, and each page-number and body glyph reads back as its cell's dots beside the cell's character |
| Package.GuideRenderableIff | stl_generator.py:346-392 | the guide renders iff every plate cell and every page-number cell has at least six dots |
| Package.ShortCellRaises | stl_generator.py:17-37 | a plate cell with fewer than six dots makes the export raise at the guide, before any STL file is written; the zip file is left holding only the original text |
| Package.PlateFiles | stl_generator.py:40-44 | one STL file per page |
| Package.PlateEntries | stl_generator.py:40-44 | one entry per plate file |
| Package.PlateFileNamesDistinct | stl_generator.py:41 | plate file names are distinct and differ from the text and the guide |
| Package.EntryNamesDistinct | stl_generator.py:17-44 | text, guide, then `plate_01.stl` onwards, cut off anywhere, have no name twice |
| Package.PlateEntriesAfterHead | stl_generator.py:40-44 | entry `i` after the two head entries is named after page `i - 1` |
| Package.PackageOrder | stl_generator.py:13-46 | the zip file holds the text, the guide, then plates in order, with distinct names; a complete export has all `2 + plates` entries and the rendered guide |
| Package.WhereExportStops | stl_generator.py:17-44 | the export completes iff the guide renders and every plate encodes; a guide raise leaves only the text, an STL raise leaves the text, the guide and the plates before the failing one |
| Package.CollectPagesInfo | stl_generator.py:20-35 | the loop computes the page records |
| Package.PlateEntriesSnoc | stl_generator.py:40-44 | one more encoded file adds its entry at the end |
| Package.PlateFileAt | stl_generator.py:43 | one page's STL file |
| Package.WritePlateFiles | stl_generator.py:40-44 | the STL loop writes every plate's entry, or raises at the first plate that cannot be encoded with the entries before it written |
| Package.GeneratePackageFromPlates | stl_generator.py:13-46 | leaves the zip file `PackageArchive` describes: complete, or cut off where the guide or an STL file raises |
| Package.SlicesMembers | stl_generator.py:9-10 | every element of a slice comes from the sliced list |
| Package.LegacyPrintable | stl_generator.py:9-10 | the legacy cut only uses cells of the stream |
| Package.GeneratePackage | stl_generator.py:7-11 | the legacy export writes the package of the fixed-run plates; a zero step raises before the zip file is opened |
| Package.LegacyAgreesWithoutPrefixes | stl_generator.py:7-11 | without prefix cells the legacy cut equals the rule-aware layout |
| Package.LegacySplitsPrefixUnit | stl_generator.py:9 | the legacy cut separates a prefix from its base where the rule-aware layout keeps them together |
| History.ReadSpec | history_manager.py:16-31 | the failed flag is monotone; once failed, reads come only from the mirror or the default; a fault returns the default |
| History.WriteSpec | history_manager.py:33-46 | the mirror is always updated; storage is written only while healthy and fault-free; the flag is monotone |
| History.FailureIsSticky | history_manager.py:18-40 | once failed, no access resets the flag or touches the storage |
| History.WriteThenRead | history_manager.py:16-46 | a written value reads back, even after a storage failure, unless it is empty (then the default) |
| History.HistoryOf | history_manager.py:50-53 | a non-list reads as the empty history |
| History.ConfigOf | history_manager.py:98-101 | a non-dict reads as no settings |
| History.NewEntry | history_manager.py:59-65 | the entry holds the text, the time and the settings, with defaults 10, 3 and 1.0 |
| History.PySlice | history_manager.py:82 | `xs[:n]` is a prefix, `n` long for `n >= 0` and `len + n` long for negative `n` |
| History.AddRepeatRefreshesHead | history_manager.py:67-75 | a repeat of the head only refreshes its timestamp; length and other entries unchanged |
| History.AddNewIsBounded | history_manager.py:77-84 | a new entry goes first; the list keeps `min(limit, len + 1)` entries, the newest, in order |
| History.AddNegativeLimit | history_manager.py:81-82 | a negative limit drops that many entries from the old end |
| History.AddRaisesOnOtherLimits | history_manager.py:81-82 | a float limit raises iff it is exceeded; any other non-integer limit raises |
| History.AddEntryThenGet | history_manager.py:55-84 | after a stored entry, the next `get_history` returns the stored list |
| History.Updated | history_manager.py:105 | new settings override; untouched keys keep their values |
| History.SaveThenLoad | history_manager.py:103-106 | after `save_settings` the settings are the old ones overridden by the new (from none after a read fault) |
| History.Trunc | history_manager.py:94 | `int(x)` truncates toward zero |
| History.TruncOfInt | main.py:789-790 | `int` of an integer is that integer, so the handler's `int` is stored as given |
| History.SetLimitThenGet | history_manager.py:89-94 | `get_history_limit` returns the truncated limit afterwards; other settings are kept |
| History.HistoryManager.constructor | history_manager.py:5-14 | empty mirrors, storage healthy |
| History.HistoryManager.SafeGet | history_manager.py:16-31 | implements `ReadSpec` |
| History.HistoryManager.SafeSet | history_manager.py:33-46 | implements `WriteSpec` |
| History.HistoryManager.GetHistory | history_manager.py:50-53 | the history read, or empty for a non-list |
| History.HistoryManager.LoadSettings | history_manager.py:98-101 | the config read, or empty for a non-dict |
| History.HistoryManager.GetHistoryLimit | history_manager.py:89-91 | `history_limit`, or 20 when absent |
| History.HistoryManager.UpdateList | history_manager.py:67-84 | the list work of `add_entry` |
| History.HistoryManager.AddEntry | history_manager.py:55-84 | reads, updates and stores the history; on an exception after the insertion, a list shared with the mirror keeps the insertion |
| History.HistoryManager.ClearHistory | history_manager.py:86-87 | stores the empty history |
| History.HistoryManager.SaveSettings | history_manager.py:103-106 | stores the merged settings |
| History.HistoryManager.SetHistoryLimit | history_manager.py:93-94 | saves `{history_limit: int(limit)}` |

## Left out

- Everything Flet: widgets, dialogs, event handlers, app start-up and the build scripts. It is UI glue with no logic of its own.
- The merge-conflict duplicates in `main.py` are not resolved. Both preview revisions and the export are modelled side by side (`WordFlatten`).
- `braille_logic` is not part of this model:
  - the cell table `BRAILLE_MAP`, `NUM_INDICATOR` and `SPACE_MARK` are parameters (`BrailleTable`, `spaceMark`);
  - the prefix marks of `split_cells_with_rules` are a parameter set `prefixes`;
  - the kana-to-cell conversion itself is not modelled.
- Cells compare by their dot pattern, which is what `tuple(cell['dots']) in prefix_marks_vals` does. The preview's extra dictionary fields are carried as `FlatCell` tags. When lines are split, untagged cells are used; the split never reads the tags.
- Floating point is not modelled:
  - lengths are exact reals, and every layout constant is exact in binary floating point except 2.2, 2.4 and 1.6;
  - `math.cos`, `math.sin`, `math.sqrt` and `math.pi` are uninterpreted fields of a `Trig` record;
  - `DomeScalable` asks that `sin` of the dome's top angle be non-zero, because `_add_dot_mesh` divides by it (stl_generator.py:266-269); this holds for the real sine of 3π/8;
  - the float32 packing `struct.pack('<3f', …)` is a given function, of which only its 12-byte length is used.
- Mesh.HolePoints: the `dist == 0` guard is modelled, but the projection is only stated by count. The geometry depends on the uninterpreted `sqrt`.
- Mesh.AddBrailleChar requires `RaisedWithinSix` (no raised dot past index 5). The source's `offsets[i]` raises `IndexError` there. A cell with fewer than six entries is covered: `_add_braille_char` only loops over the entries present, and so does the model. In the package path the guide raises first for such a cell (`GuideRenderable`, `ShortCellRaises`).
- Package.PackageArchive requires the same of every plate and table cell (`PlatesPrintable`, `TablePrintable`). Such a cell passes the guide, which reads only the first six dots. In the source the export then raises at that plate's STL file (stl_generator.py:43), with the text, the guide and the earlier plates written. The model does not cover that raise.
- Package.GeneratePackageFromPlates has the same requirement, for the same reason.
- Package.PackageOrder has the same requirement, for the same reason.
- Package.GeneratePackage requires the same of the stream (`CellsPrintable`) and the table, for the same reason.
- The guide's HTML markup and styling are not modelled. The guide entry holds what each plate's block shows: the plate number, the page number's glyphs, and each cell's glyph and character.
- Zip I/O (the deflate compression and the UTF-8 encoding of the text and guide) is not modelled. The zip file is the ordered list of its entries, with a flag saying whether the export ran to the end. Because `with` closes the file on a raise and no caller removes it, a raise leaves the entries written before it (`Package.Archive`).
- Time is a parameter, because `datetime.now()` is nondeterministic. `page.client_storage` is a map, and an explicit fault flag on each access says whether it raises. A write that raises is taken to leave the storage unchanged.
- History.PyEq treats `bool`, `int` and `float` as equal by value, as Python does, but compares lists and dicts structurally without that numeric equivalence.
- `int(limit)` in `set_history_limit` is modelled for numbers only, not for strings. The handler at main.py:789-790 already passes an `int`, which `Trunc` leaves unchanged (`TruncOfInt`).
- The call at main.py:941 passes three arguments to `add_entry`, which takes two. The resulting `TypeError` is swallowed there, so that call never records history. That call site is UI glue and is not modelled.
- `print` diagnostics in `_safe_get`/`_safe_set` and `handleError` in `emit` are not modelled. Only their effect on state is.

## Findings

| source | as written | input that shows it | evidently intended | confidence | as-written member | corrected member |
|---|---|---|---|---|---|---|
| main.py:914-915 | the export adds a space cell after every non-empty word that is not last in the full word list | words `[a, b]` where `b` was erased (no cells): the export is `a`'s cells plus a trailing space cell, which the preview does not show; with a one-cell line width that becomes an extra plate line holding only a space | the preview's rule (a space only between kept words), as the comments at main.py:906-907 and 914-916 say | not executed | WordFlatten.ExportTrailingSpace, Editor.ExportExtraLine | WordFlatten.ExportCorrectedMatchesPreview, Editor.ExportMatchesPreview |
| stl_generator.py:91-95 | the height floor only makes room for the hole, and the hole is placed against the top margin | a plate with one line and page number 1 (two cells): the positions of dots 2, 4 and 5 of the first page-number cell lie inside the 5 mm hole; the Japanese number sign (dots 3-4-5-6) raises dots 4 and 5 | a plate high enough that the ring clears the page number's row | not executed | PlateLayout.RingClearsPageNumberIff, PlateLayout.PageNumberDotOverHole | PlateLayout.CorrectedTotalHeight |
