/**
 * From the edited words to plates: the two previews and the export each flatten the words, split
 * the stream into lines with `split_cells_with_rules` and cut the lines into plates.
 */
module Editor {
  import opened Braille
  import opened SeqUtil
  import opened Pagination
  import opened WordFlatten

  /** The plates of a cell stream as the editor cuts them; `None` when the plate step is zero. */
  function PlatesOf(cells: seq<Cell>, prefixes: set<Dots>, maxChars: int, linesPerPlate: int)
    : Option<seq<seq<Line>>>
  {
    PlateSlices(LinesOf(Grouping(cells, prefixes, maxChars)), linesPerPlate)
  }

  /** The earlier preview: a non-positive line width falls back to 10 cells and a non-positive
      plate height to 1 line, so it always yields plates, and they give back the flattened stream. */
  method LegacyPreviewPlates(words: seq<WordMapping>, prefixes: set<Dots>, spaceMark: Dots,
                             charsPerLine: int, linesPerPlate: int)
    returns (plates: seq<seq<Line>>)
    ensures var chars := if charsPerLine <= 0 then 10 else charsPerLine;
      var height := if linesPerPlate <= 0 then 1 else linesPerPlate;
      Some(plates) == PlatesOf(Untag(LegacyPreviewSpec(words, spaceMark)), prefixes, chars, height)
    ensures Concat(Concat(plates)) == Untag(LegacyPreviewSpec(words, spaceMark))
    ensures forall p :: 0 <= p < |plates| ==> 0 < |plates[p]| <= (if linesPerPlate <= 0 then 1 else linesPerPlate)
  {
    var flat := LegacyPreviewCells(words, spaceMark);
    var chars := charsPerLine;
    var height := linesPerPlate;
    if chars <= 0 { chars := 10; }
    if height <= 0 { height := 1; }
    var lines := SplitCellsWithRules(Untag(flat), prefixes, chars);
    plates := PlateSlices(lines, height).value;
    ChunksConcat(lines, height);
  }

  /** The current preview: no fallback for the settings, so a zero plate height raises. */
  method PreviewPlates(words: seq<WordMapping>, prefixes: set<Dots>, spaceMark: Dots,
                       charsPerLine: int, linesPerPlate: int)
    returns (plates: Option<seq<seq<Line>>>)
    ensures plates == PlatesOf(Untag(PreviewSpec(words, spaceMark)), prefixes, charsPerLine, linesPerPlate)
    ensures plates.None? <==> linesPerPlate == 0
    ensures linesPerPlate > 0 ==> Concat(Concat(plates.value)) == Untag(PreviewSpec(words, spaceMark))
  {
    var flat := PreviewCells(words, spaceMark);
    var lines := SplitCellsWithRules(Untag(flat), prefixes, charsPerLine);
    plates := PlateSlices(lines, linesPerPlate);
  }

  /** `get_structured_data_for_export`. */
  method ExportPlates(words: seq<WordMapping>, prefixes: set<Dots>, spaceMark: Dots,
                      charsPerLine: int, linesPerPlate: int)
    returns (plates: Option<seq<seq<Line>>>)
    ensures plates == PlatesOf(ExportSpec(words, spaceMark), prefixes, charsPerLine, linesPerPlate)
    ensures plates.None? <==> linesPerPlate == 0
    ensures linesPerPlate > 0 ==> Concat(Concat(plates.value)) == ExportSpec(words, spaceMark)
  {
    var flat := ExportCells(words, spaceMark);
    var lines := SplitCellsWithRules(flat, prefixes, charsPerLine);
    plates := PlateSlices(lines, linesPerPlate);
  }

  /** The export shows what the current preview shows whenever the last word has cells; with the
      corrected export it always does. */
  lemma ExportMatchesPreview(words: seq<WordMapping>, prefixes: set<Dots>, spaceMark: Dots,
                             charsPerLine: int, linesPerPlate: int)
    ensures |words| == 0 || words[|words| - 1].cells != [] ==>
      PlatesOf(ExportSpec(words, spaceMark), prefixes, charsPerLine, linesPerPlate)
        == PlatesOf(Untag(PreviewSpec(words, spaceMark)), prefixes, charsPerLine, linesPerPlate)
    ensures PlatesOf(ExportCorrected(words, spaceMark), prefixes, charsPerLine, linesPerPlate)
        == PlatesOf(Untag(PreviewSpec(words, spaceMark)), prefixes, charsPerLine, linesPerPlate)
  {
    ExportVersusPreview(words, spaceMark);
    var preview := Untag(PreviewSpec(words, spaceMark));
    assert preview + [] == preview;
    if |words| == 0 {
      assert ValidIndices(words) == [];
    }
  }

  /** A word of one cell filling a one-cell line, followed by an erased word: the preview has one
      line, the export a second line holding only a space cell. */
  lemma ExportExtraLine(a: WordMapping, b: WordMapping, prefixes: set<Dots>, spaceMark: Dots)
    requires |a.cells| == 1 && a.cells[0].dots !in prefixes && b.cells == []
    requires spaceMark !in prefixes
    ensures LinesOf(Grouping(Untag(PreviewSpec([a, b], spaceMark)), prefixes, 1)) == [a.cells]
    ensures LinesOf(Grouping(ExportSpec([a, b], spaceMark), prefixes, 1)) == [a.cells, [SpaceCell(spaceMark)]]
  {
    ExportTrailingSpace(a, b, spaceMark);
    var x := a.cells[0];
    var sp := SpaceCell(spaceMark);
    assert a.cells == [x];
    NoPrefixIsFixedChunks([x], prefixes, 1);
    assert Chunks([x], 1) == [[x]];
    var e := [x, sp];
    assert a.cells + [sp] == e;
    NoPrefixIsFixedChunks(e, prefixes, 1);
    assert e[1..] == [sp] && e[..1] == [x];
    assert Chunks(e, 1) == [[x]] + Chunks([sp], 1);
  }
}
