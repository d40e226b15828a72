/**
 * Flattening the converted words into one cell stream before pagination.
 *
 * The editor holds one `WordMapping` per word: its original spelling, its reading and its braille
 * cells (the cell list is empty when the user has erased the word). Three policies exist:
 *  - the earlier preview keeps every word and puts a space cell after every word but the last;
 *  - the current preview first drops the words without cells and puts a space cell between
 *    consecutive kept words;
 *  - the export drops the words without cells too, but decides on the space by the word's
 *    position in the full word list.
 * The previews tag each cell with the index and spelling of its word (-1 and "(Space)" for the
 * separator), so that a click on a cell finds the word to edit.
 */
module WordFlatten {
  import opened Braille
  import opened SeqUtil

  datatype WordMapping = WordMapping(orig: string, reading: string, cells: seq<Cell>)

  /** A preview cell: the braille cell, the index of its word (-1 for a separator) and its spelling. */
  datatype FlatCell = FlatCell(cell: Cell, wordIdx: int, orig: string)

  function SpaceCell(spaceMark: Dots): Cell
  {
    Cell(spaceMark, " ")
  }

  function Separator(spaceMark: Dots): FlatCell
  {
    FlatCell(SpaceCell(spaceMark), -1, "(Space)")
  }

  /** The cells of word `idx`, each tagged with the word's index and spelling. */
  function Tagged(words: seq<WordMapping>, idx: nat): (t: seq<FlatCell>)
    requires idx < |words|
    ensures |t| == |words[idx].cells|
    ensures forall k :: 0 <= k < |t| ==>
      t[k] == FlatCell(words[idx].cells[k], idx, words[idx].orig)
  {
    seq(|words[idx].cells|, k requires 0 <= k < |words[idx].cells| =>
      FlatCell(words[idx].cells[k], idx, words[idx].orig))
  }

  /** The bare cells of a tagged stream. */
  function Untag(fs: seq<FlatCell>): (cs: seq<Cell>)
    ensures |cs| == |fs|
  {
    seq(|fs|, k requires 0 <= k < |fs| => fs[k].cell)
  }

  lemma UntagAppend(a: seq<FlatCell>, b: seq<FlatCell>)
    ensures Untag(a + b) == Untag(a) + Untag(b)
  {
    assert Untag(a + b) == Untag(a) + Untag(b);
  }

  // ---------------------------------------------------------------------------
  // Which words take part

  /** The indices `0 .. n - 1` in order (the earlier preview keeps every word). */
  function AllIndices(n: nat): (r: seq<nat>)
    ensures |r| == n
    ensures forall k :: 0 <= k < n ==> r[k] == k
  {
    if n == 0 then [] else AllIndices(n - 1) + [n - 1]
  }

  /** The indices below `upto` of the words that have cells, in increasing order. */
  function KeptBelow(words: seq<WordMapping>, upto: nat): (r: seq<nat>)
    requires upto <= |words|
    ensures forall k :: 0 <= k < |r| ==> r[k] < upto && words[r[k]].cells != []
  {
    if upto == 0 then []
    else if words[upto - 1].cells != [] then KeptBelow(words, upto - 1) + [upto - 1]
    else KeptBelow(words, upto - 1)
  }

  /** The kept indices are increasing and miss no word that has cells. */
  lemma {:induction false} KeptBelowComplete(words: seq<WordMapping>, upto: nat)
    requires upto <= |words|
    ensures var r := KeptBelow(words, upto);
      && (forall j, k :: 0 <= j < k < |r| ==> r[j] < r[k])
      && (forall i :: 0 <= i < upto && words[i].cells != [] ==> i in r)
  {
    if upto > 0 {
      KeptBelowComplete(words, upto - 1);
    }
  }

  /** The `valid_indices` of the current preview: every word that still has cells. */
  function ValidIndices(words: seq<WordMapping>): seq<nat>
  {
    KeptBelow(words, |words|)
  }

  lemma {:induction false} KeptAllWhenNoneEmpty(words: seq<WordMapping>, upto: nat)
    requires upto <= |words|
    requires forall i :: 0 <= i < |words| ==> words[i].cells != []
    ensures KeptBelow(words, upto) == AllIndices(upto)
  {
    if upto > 0 {
      KeptAllWhenNoneEmpty(words, upto - 1);
    }
  }

  // ---------------------------------------------------------------------------
  // Specification of the previews

  /** The tagged cells of the words at `idxs`, one separator between consecutive words. */
  function SpacedJoin(words: seq<WordMapping>, idxs: seq<nat>, spaceMark: Dots): seq<FlatCell>
    requires forall k :: 0 <= k < |idxs| ==> idxs[k] < |words|
  {
    if |idxs| == 0 then []
    else if |idxs| == 1 then Tagged(words, idxs[0])
    else SpacedJoin(words, idxs[..|idxs| - 1], spaceMark) + [Separator(spaceMark)]
         + Tagged(words, idxs[|idxs| - 1])
  }

  function LegacyPreviewSpec(words: seq<WordMapping>, spaceMark: Dots): seq<FlatCell>
  {
    SpacedJoin(words, AllIndices(|words|), spaceMark)
  }

  function PreviewSpec(words: seq<WordMapping>, spaceMark: Dots): seq<FlatCell>
  {
    SpacedJoin(words, ValidIndices(words), spaceMark)
  }

  /** Separators only between word cells: never first, never last, never two in a row. */
  ghost predicate WellSpaced(fs: seq<FlatCell>)
  {
    && (|fs| > 0 ==> fs[0].wordIdx >= 0 && fs[|fs| - 1].wordIdx >= 0)
    && (forall k :: 0 <= k < |fs| - 1 && fs[k].wordIdx < 0 ==> fs[k + 1].wordIdx >= 0)
  }

  /** Every cell is a separator or a cell of the word its tag names, carrying that word's spelling. */
  ghost predicate TagsFaithful(words: seq<WordMapping>, fs: seq<FlatCell>, spaceMark: Dots)
  {
    forall k :: 0 <= k < |fs| ==>
      if fs[k].wordIdx < 0 then fs[k] == Separator(spaceMark)
      else fs[k].wordIdx < |words| && fs[k].cell in words[fs[k].wordIdx].cells
           && fs[k].orig == words[fs[k].wordIdx].orig
  }

  /** Joining words that all have cells gives a well-spaced stream with faithful tags, whose
      bare cells are the words' cells with one space cell between neighbours. */
  lemma {:induction false} SpacedJoinFacts(words: seq<WordMapping>, idxs: seq<nat>, spaceMark: Dots)
    requires forall k :: 0 <= k < |idxs| ==> idxs[k] < |words| && words[idxs[k]].cells != []
    ensures WellSpaced(SpacedJoin(words, idxs, spaceMark))
    ensures TagsFaithful(words, SpacedJoin(words, idxs, spaceMark), spaceMark)
    ensures |idxs| > 0 ==> |SpacedJoin(words, idxs, spaceMark)| > 0
  {
    var r := SpacedJoin(words, idxs, spaceMark);
    if |idxs| == 1 {
      assert r == Tagged(words, idxs[0]);
    } else if |idxs| > 1 {
      var init := idxs[..|idxs| - 1];
      var a := SpacedJoin(words, init, spaceMark);
      var t := Tagged(words, idxs[|idxs| - 1]);
      SpacedJoinFacts(words, init, spaceMark);
      assert r == a + [Separator(spaceMark)] + t;
      assert |a| > 0 && |t| > 0;
      forall k | 0 <= k < |r|
        ensures r[k] == (if k < |a| then a[k] else if k == |a| then Separator(spaceMark) else t[k - |a| - 1])
      {
      }
    }
  }

  /** The current preview never shows a separator at either end or two separators in a row, and
      every cell's tag names the word it came from. */
  lemma PreviewWellSpaced(words: seq<WordMapping>, spaceMark: Dots)
    ensures WellSpaced(PreviewSpec(words, spaceMark))
    ensures TagsFaithful(words, PreviewSpec(words, spaceMark), spaceMark)
    ensures PreviewSpec(words, spaceMark) == [] <==> ValidIndices(words) == []
  {
    SpacedJoinFacts(words, ValidIndices(words), spaceMark);
  }

  /** The earlier preview, by contrast, shows two separators in a row around an erased word. */
  lemma LegacyPreviewDoubleSpace(a: WordMapping, b: WordMapping, c: WordMapping, spaceMark: Dots)
    requires a.cells != [] && b.cells == [] && c.cells != []
    ensures !WellSpaced(LegacyPreviewSpec([a, b, c], spaceMark))
  {
    var words := [a, b, c];
    var idxs := AllIndices(3);
    assert idxs == [0, 1, 2];
    assert idxs[..2] == [0, 1] && [0, 1][..1] == [0];
    var ta := Tagged(words, 0);
    assert Tagged(words, 1) == [];
    assert SpacedJoin(words, [0], spaceMark) == ta;
    var j2 := SpacedJoin(words, [0, 1], spaceMark);
    assert j2 == ta + [Separator(spaceMark)];
    var r := LegacyPreviewSpec(words, spaceMark);
    assert r == j2 + [Separator(spaceMark)] + Tagged(words, 2);
    assert r[|ta|] == Separator(spaceMark) && r[|ta| + 1] == Separator(spaceMark);
  }

  /** With no erased word the two previews coincide. */
  lemma PreviewsAgreeWithoutErasedWords(words: seq<WordMapping>, spaceMark: Dots)
    requires forall i :: 0 <= i < |words| ==> words[i].cells != []
    ensures PreviewSpec(words, spaceMark) == LegacyPreviewSpec(words, spaceMark)
  {
    KeptAllWhenNoneEmpty(words, |words|);
  }

  // ---------------------------------------------------------------------------
  // Specification of the export

  /** The export's cells for the words below `upto`: each word with cells, followed by a space cell
      unless it is the last word of the whole list. */
  function ExportBelow(words: seq<WordMapping>, upto: nat, spaceMark: Dots): seq<Cell>
    requires upto <= |words|
  {
    if upto == 0 then []
    else if words[upto - 1].cells == [] then ExportBelow(words, upto - 1, spaceMark)
    else ExportBelow(words, upto - 1, spaceMark) + words[upto - 1].cells
         + (if upto - 1 < |words| - 1 then [SpaceCell(spaceMark)] else [])
  }

  function ExportSpec(words: seq<WordMapping>, spaceMark: Dots): seq<Cell>
  {
    ExportBelow(words, |words|, spaceMark)
  }

  lemma KeptBelowStep(words: seq<WordMapping>, upto: nat)
    requires 0 < upto <= |words|
    ensures var ks := KeptBelow(words, upto);
      words[upto - 1].cells != [] ==>
        (|ks| > 0 && ks[..|ks| - 1] == KeptBelow(words, upto - 1) && ks[|ks| - 1] == upto - 1)
  {
  }

  /** Joining one more word adds a space cell (unless it is the first) and the word's cells. */
  lemma SpacedJoinSnoc(words: seq<WordMapping>, ks: seq<nat>, spaceMark: Dots)
    requires |ks| > 0
    requires forall k :: 0 <= k < |ks| ==> ks[k] < |words|
    ensures var prev := ks[..|ks| - 1];
      Untag(SpacedJoin(words, ks, spaceMark))
        == (if prev == [] then [] else Untag(SpacedJoin(words, prev, spaceMark)) + [SpaceCell(spaceMark)])
           + words[ks[|ks| - 1]].cells
  {
    var prev := ks[..|ks| - 1];
    var t := Tagged(words, ks[|ks| - 1]);
    assert Untag(t) == words[ks[|ks| - 1]].cells;
    if prev != [] {
      var sj := SpacedJoin(words, prev, spaceMark);
      UntagAppend(sj + [Separator(spaceMark)], t);
      UntagAppend(sj, [Separator(spaceMark)]);
    }
  }

  /** Before the last word, the export is the current preview's bare cells followed by one space
      cell (when any word so far has cells). */
  lemma {:induction false} ExportPrefix(words: seq<WordMapping>, upto: nat, spaceMark: Dots)
    requires upto < |words|
    ensures ExportBelow(words, upto, spaceMark)
      == Untag(SpacedJoin(words, KeptBelow(words, upto), spaceMark))
         + (if KeptBelow(words, upto) == [] then [] else [SpaceCell(spaceMark)])
  {
    if upto > 0 {
      ExportPrefix(words, upto - 1, spaceMark);
      if words[upto - 1].cells != [] {
        KeptBelowStep(words, upto);
        SpacedJoinSnoc(words, KeptBelow(words, upto), spaceMark);
      }
    }
  }

  /** The export ends with the last word's cells, and no space cell, when that word has cells. */
  lemma ExportLastStep(words: seq<WordMapping>, spaceMark: Dots)
    requires |words| > 0 && words[|words| - 1].cells != []
    ensures ExportSpec(words, spaceMark)
      == ExportBelow(words, |words| - 1, spaceMark) + words[|words| - 1].cells
  {
    var n := |words|;
    assert ExportSpec(words, spaceMark)
      == ExportBelow(words, n - 1, spaceMark) + words[n - 1].cells + [];
  }

  /** The preview ends with the last word's cells, after a separator when an earlier word has
      cells. */
  lemma PreviewLastStep(words: seq<WordMapping>, spaceMark: Dots)
    requires |words| > 0 && words[|words| - 1].cells != []
    ensures Untag(PreviewSpec(words, spaceMark))
      == (if KeptBelow(words, |words| - 1) == [] then []
          else Untag(SpacedJoin(words, KeptBelow(words, |words| - 1), spaceMark)) + [SpaceCell(spaceMark)])
         + words[|words| - 1].cells
  {
    var n := |words|;
    var ks := KeptBelow(words, n);
    KeptBelowStep(words, n);
    SpacedJoinSnoc(words, ks, spaceMark);
  }

  /** The export when the last word has cells: the preview's bare cells. */
  lemma ExportLastKept(words: seq<WordMapping>, spaceMark: Dots)
    requires |words| > 0 && words[|words| - 1].cells != []
    ensures ExportSpec(words, spaceMark) == Untag(PreviewSpec(words, spaceMark))
  {
    ExportLastStep(words, spaceMark);
    PreviewLastStep(words, spaceMark);
    ExportPrefix(words, |words| - 1, spaceMark);
    var prev := KeptBelow(words, |words| - 1);
    assert prev == [] ==> Untag(SpacedJoin(words, prev, spaceMark)) == [];
    JoinBeforeLast(ExportSpec(words, spaceMark), Untag(PreviewSpec(words, spaceMark)),
                   ExportBelow(words, |words| - 1, spaceMark), Untag(SpacedJoin(words, prev, spaceMark)),
                   words[|words| - 1].cells, [SpaceCell(spaceMark)], prev == []);
  }

  /** The sequence algebra of `ExportLastKept`: an optional separator after the earlier part,
      then the last part, is the same whether the separator is counted with the earlier part or
      not. */
  lemma JoinBeforeLast<T>(e: seq<T>, p: seq<T>, below: seq<T>, joined: seq<T>, last: seq<T>,
                          sep: seq<T>, first: bool)
    requires e == below + last
    requires below == joined + (if first then [] else sep)
    requires p == (if first then [] else joined + sep) + last
    requires first ==> joined == []
    ensures e == p
  {
  }

  /** The export when the last word is erased: the export below it, which is the preview's bare
      cells plus a space cell when some word has cells. */
  lemma ExportLastErased(words: seq<WordMapping>, spaceMark: Dots)
    requires |words| > 0 && words[|words| - 1].cells == []
    ensures ExportSpec(words, spaceMark)
      == Untag(PreviewSpec(words, spaceMark))
         + (if ValidIndices(words) != [] then [SpaceCell(spaceMark)] else [])
  {
    var n := |words|;
    ExportPrefix(words, n - 1, spaceMark);
    assert KeptBelow(words, n) == KeptBelow(words, n - 1);
    assert ExportSpec(words, spaceMark) == ExportBelow(words, n - 1, spaceMark);
  }

  /** The export is the current preview's bare cells, plus one trailing space cell exactly when the
      last word has no cells and some word does. */
  lemma ExportVersusPreview(words: seq<WordMapping>, spaceMark: Dots)
    ensures ExportSpec(words, spaceMark)
      == Untag(PreviewSpec(words, spaceMark))
         + (if ValidIndices(words) != [] && words[|words| - 1].cells == [] then [SpaceCell(spaceMark)] else [])
  {
    var n := |words|;
    if n == 0 {
    } else if words[n - 1].cells != [] {
      ExportLastKept(words, spaceMark);
    } else {
      ExportLastErased(words, spaceMark);
    }
  }

  /** A concrete input where the export and the preview differ: one word, then an erased word. */
  lemma ExportTrailingSpace(a: WordMapping, b: WordMapping, spaceMark: Dots)
    requires a.cells != [] && b.cells == []
    ensures ExportSpec([a, b], spaceMark) == a.cells + [SpaceCell(spaceMark)]
    ensures Untag(PreviewSpec([a, b], spaceMark)) == a.cells
  {
    var words := [a, b];
    assert KeptBelow(words, 1) == [0];
    assert ValidIndices(words) == [0];
    ExportVersusPreview(words, spaceMark);
    assert Untag(Tagged(words, 0)) == a.cells;
  }

  /** The export with the preview's rule: the bare cells of the current preview. */
  function ExportCorrected(words: seq<WordMapping>, spaceMark: Dots): (cs: seq<Cell>)
  {
    Untag(PreviewSpec(words, spaceMark))
  }

  /** The corrected export has no space cell of its own at either end and agrees with the export
      as written whenever the last word has cells. */
  lemma ExportCorrectedMatchesPreview(words: seq<WordMapping>, spaceMark: Dots)
    ensures var cs := ExportCorrected(words, spaceMark);
      && (|cs| > 0 ==> cs[|cs| - 1] == PreviewSpec(words, spaceMark)[|cs| - 1].cell
                       && PreviewSpec(words, spaceMark)[|cs| - 1].wordIdx >= 0)
      && (|words| > 0 && words[|words| - 1].cells != [] ==> cs == ExportSpec(words, spaceMark))
  {
    PreviewWellSpaced(words, spaceMark);
    ExportVersusPreview(words, spaceMark);
  }

  // ---------------------------------------------------------------------------
  // The flattening loops

  /** Appends the cells of word `idx`, tagged, one by one. */
  method AppendTagged(flat: seq<FlatCell>, words: seq<WordMapping>, idx: nat) returns (out: seq<FlatCell>)
    requires idx < |words|
    ensures out == flat + Tagged(words, idx)
  {
    out := flat;
    var item := words[idx];
    for j := 0 to |item.cells|
      invariant out == flat + Tagged(words, idx)[..j]
    {
      out := out + [FlatCell(item.cells[j], idx, item.orig)];
      assert Tagged(words, idx)[..j + 1] == Tagged(words, idx)[..j] + [Tagged(words, idx)[j]];
    }
    assert Tagged(words, idx)[..|item.cells|] == Tagged(words, idx);
  }

  /** The loop of both previews over a list of word indices: each word's tagged cells, then a
      separator unless it is the last index. */
  method FlattenIndices(words: seq<WordMapping>, idxs: seq<nat>, spaceMark: Dots) returns (flat: seq<FlatCell>)
    requires forall k :: 0 <= k < |idxs| ==> idxs[k] < |words|
    ensures flat == SpacedJoin(words, idxs, spaceMark)
  {
    flat := [];
    for i := 0 to |idxs|
      invariant flat == SpacedJoin(words, idxs[..i], spaceMark)
                        + (if 0 < i < |idxs| then [Separator(spaceMark)] else [])
    {
      var before := flat;
      flat := AppendTagged(flat, words, idxs[i]);
      assert idxs[..i + 1][..i] == idxs[..i];
      if i < |idxs| - 1 {
        flat := flat + [Separator(spaceMark)];
      }
    }
    assert idxs[..|idxs|] == idxs;
  }

  /** The earlier preview (every word, separators between all neighbours). */
  method LegacyPreviewCells(words: seq<WordMapping>, spaceMark: Dots) returns (flat: seq<FlatCell>)
    ensures flat == LegacyPreviewSpec(words, spaceMark)
  {
    flat := FlattenIndices(words, AllIndices(|words|), spaceMark);
  }

  /** The current preview (words without cells dropped first). */
  method PreviewCells(words: seq<WordMapping>, spaceMark: Dots) returns (flat: seq<FlatCell>)
    ensures flat == PreviewSpec(words, spaceMark)
    ensures WellSpaced(flat) && TagsFaithful(words, flat, spaceMark)
  {
    var validIndices := ValidIndices(words);
    flat := FlattenIndices(words, validIndices, spaceMark);
    PreviewWellSpaced(words, spaceMark);
  }

  /** The export loop: words without cells are skipped; a space cell follows every other word
      that is not last in the full list. */
  method ExportCells(words: seq<WordMapping>, spaceMark: Dots) returns (flat: seq<Cell>)
    ensures flat == ExportSpec(words, spaceMark)
    ensures flat == Untag(PreviewSpec(words, spaceMark))
               + (if ValidIndices(words) != [] && words[|words| - 1].cells == []
                  then [SpaceCell(spaceMark)] else [])
  {
    flat := [];
    for wordIdx := 0 to |words|
      invariant flat == ExportBelow(words, wordIdx, spaceMark)
    {
      var item := words[wordIdx];
      if item.cells == [] {
        continue;
      }
      flat := flat + item.cells;
      if wordIdx < |words| - 1 {
        flat := flat + [SpaceCell(spaceMark)];
      }
    }
    ExportVersusPreview(words, spaceMark);
  }
}
