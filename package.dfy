/**
 * The export package: the entries of the zip archive — the original text, the guide sheet and one
 * STL file per plate — and the braille page number that each plate carries.
 */
module Package {
  import opened SeqUtil
  import opened Braille
  import opened Decimal
  import opened Mesh
  import opened StlEncoding
  import opened PlateStl
  import opened Pagination
  import Editor

  /** The transliteration tables the generator reads: the cell of each character, the number
      sign, and the blank cell used for characters the table lacks. */
  datatype BrailleTable = BrailleTable(cells: map<char, Dots>, numIndicator: Dots, spaceMark: Dots)

  /** `BRAILLE_MAP.get(c, SPACE_MARK)`. */
  function CellOf(table: BrailleTable, c: char): Dots
  {
    if c in table.cells then table.cells[c] else table.spaceMark
  }

  /** The cells of the page number `n`: the number sign, then one cell per decimal digit. */
  function PageNumberCells(n: nat, table: BrailleTable): (ds: seq<Dots>)
    ensures |ds| == 1 + |NatToString(n)| && ds[0] == table.numIndicator
    ensures forall k :: 1 <= k < |ds| ==> ds[k] == CellOf(table, NatToString(n)[k - 1])
  {
    var s := NatToString(n);
    [table.numIndicator] + seq(|s|, k requires 0 <= k < |s| => CellOf(table, s[k]))
  }

  /** The page number has one cell more than `n` has decimal digits. */
  lemma PageNumberLength(n: nat, table: BrailleTable)
    ensures var d := |PageNumberCells(n, table)| - 1;
      d >= 1 && n < Pow10(d) && (d > 1 ==> Pow10(d - 1) <= n)
  {
    NatToStringLength(n);
  }

  /** `_int_to_braille_dots`. */
  method IntToBrailleDots(n: nat, table: BrailleTable) returns (dots: seq<Dots>)
    ensures dots == PageNumberCells(n, table)
  {
    var s := NatToString(n);
    dots := [table.numIndicator];
    for i := 0 to |s|
      invariant dots == PageNumberCells(n, table)[..i + 1]
    {
      dots := dots + [CellOf(table, s[i])];
    }
  }

  /** Every cell the tables can produce can be embossed. */
  predicate TablePrintable(table: BrailleTable)
  {
    && RaisedWithinSix(table.numIndicator)
    && RaisedWithinSix(table.spaceMark)
    && forall c :: c in table.cells ==> RaisedWithinSix(table.cells[c])
  }

  lemma PageNumberPrintable(n: nat, table: BrailleTable)
    requires TablePrintable(table)
    ensures RowPrintable(PageNumberCells(n, table))
  {
  }

  /** What the guide sheet is rendered from, for one plate. */
  datatype PageInfo = PageInfo(pageNum: nat, plateLines: seq<Line>, pageDots: seq<Dots>,
                               bodyLinesDots: seq<seq<Dots>>)

  datatype Content = Text(text: string) | Guide(blocks: seq<GuideBlock>) | Binary(bytes: seq<byte>)

  datatype Entry = Entry(name: string, content: Content)

  const TextEntryName: string := "original_text.txt"
  const GuideEntryName: string := "guide_sheet.html"

  function PlateFileName(pageNum: nat): string
  {
    "plate_" + Pad2(pageNum) + ".stl"
  }

  function LineDots(line: Line): (ds: seq<Dots>)
    ensures |ds| == |line| && forall k :: 0 <= k < |line| ==> ds[k] == line[k].dots
  {
    seq(|line|, k requires 0 <= k < |line| => line[k].dots)
  }

  function PlateDots(plate: seq<Line>): (ds: seq<seq<Dots>>)
    ensures |ds| == |plate| && forall i :: 0 <= i < |plate| ==> ds[i] == LineDots(plate[i])
  {
    seq(|plate|, i requires 0 <= i < |plate| => LineDots(plate[i]))
  }

  function PageInfoOf(plates: seq<seq<Line>>, i: nat, table: BrailleTable): PageInfo
    requires i < |plates|
  {
    PageInfo(i + 1, plates[i], PageNumberCells(i + 1, table), PlateDots(plates[i]))
  }

  function PagesInfo(plates: seq<seq<Line>>, table: BrailleTable): (ps: seq<PageInfo>)
    ensures |ps| == |plates|
  {
    seq(|plates|, i requires 0 <= i < |plates| => PageInfoOf(plates, i, table))
  }

  /** Every cell of every plate can be embossed. */
  predicate PlatesPrintable(plates: seq<seq<Line>>)
  {
    forall i, j, k :: 0 <= i < |plates| && 0 <= j < |plates[i]| && 0 <= k < |plates[i][j]| ==>
      RaisedWithinSix(plates[i][j][k].dots)
  }

  /** Every page's cells can be embossed. */
  predicate InfosPrintable(infos: seq<PageInfo>)
  {
    forall i :: 0 <= i < |infos| ==> BodyPrintable(infos[i].bodyLinesDots) && RowPrintable(infos[i].pageDots)
  }

  lemma PagesPrintable(plates: seq<seq<Line>>, table: BrailleTable)
    requires PlatesPrintable(plates) && TablePrintable(table)
    ensures InfosPrintable(PagesInfo(plates, table))
  {
    forall i | 0 <= i < |plates|
      ensures RowPrintable(PagesInfo(plates, table)[i].pageDots)
    {
      PageNumberPrintable(i + 1, table);
    }
  }

  // ---------------------------------------------------------------------------
  // The guide sheet

  /** What one plate's block of the guide sheet shows, markup aside: the plate number, the glyphs
      of its braille page number, and for each line the glyph and the printed character of each
      cell. */
  datatype GuideBlock = GuideBlock(pageNum: nat, pageBraille: string, lines: seq<seq<(char, string)>>)

  /** Every cell of the row has the six dots that `_dots_to_unicode` reads. */
  predicate Drawable(row: seq<Dots>)
  {
    forall k :: 0 <= k < |row| ==> |row[k]| >= 6
  }

  /** The glyphs of a row of cells, one per cell. */
  function Glyphs(row: seq<Dots>): (s: string)
    requires Drawable(row)
    ensures |s| == |row|
  {
    seq(|row|, k requires 0 <= k < |row| => DotsToUnicode(row[k]))
  }

  /** The glyph and the character of each cell of a line. */
  function LineCells(line: Line): (cs: seq<(char, string)>)
    requires Drawable(LineDots(line))
    ensures |cs| == |line|
  {
    seq(|line|, k requires 0 <= k < |line| => (DotsToUnicode(line[k].dots), line[k].ch))
  }

  /** Every cell a page's block shows can be drawn. */
  predicate PageDrawable(info: PageInfo)
  {
    && Drawable(info.pageDots)
    && forall j :: 0 <= j < |info.plateLines| ==> Drawable(LineDots(info.plateLines[j]))
  }

  /** `_generate_guide_html` renders without raising. */
  predicate GuideRenderable(infos: seq<PageInfo>)
  {
    forall i :: 0 <= i < |infos| ==> PageDrawable(infos[i])
  }

  function GuideBlockOf(info: PageInfo): GuideBlock
    requires PageDrawable(info)
  {
    GuideBlock(info.pageNum, Glyphs(info.pageDots),
               seq(|info.plateLines|, j requires 0 <= j < |info.plateLines| => LineCells(info.plateLines[j])))
  }

  function GuideBlocks(infos: seq<PageInfo>): (bs: seq<GuideBlock>)
    requires GuideRenderable(infos)
    ensures |bs| == |infos|
  {
    seq(|infos|, i requires 0 <= i < |infos| => GuideBlockOf(infos[i]))
  }

  /** A glyph reads back as the first six dots of its cell. */
  lemma GlyphReadsBack(dots: Dots)
    requires |dots| >= 6
    ensures UnicodeToDots(DotsToUnicode(dots)) == dots[..6]
  {
    assert DotsToUnicode(dots) == DotsToUnicode(dots[..6]);
    UnicodeRoundTrip(dots[..6]);
  }

  /** The guide shows each plate under its number, with its page number's glyphs, and each of
      its cells as a glyph that reads back as the cell's dots, beside the cell's character. */
  lemma GuideShowsCells(infos: seq<PageInfo>, i: nat, j: nat, k: nat)
    requires GuideRenderable(infos) && i < |infos|
    ensures var b := GuideBlocks(infos)[i];
      && b.pageNum == infos[i].pageNum
      && |b.pageBraille| == |infos[i].pageDots|
      && |b.lines| == |infos[i].plateLines|
      && (k < |b.pageBraille| ==> UnicodeToDots(b.pageBraille[k]) == infos[i].pageDots[k][..6])
      && (j < |b.lines| ==> |b.lines[j]| == |infos[i].plateLines[j]|)
      && (j < |b.lines| && k < |b.lines[j]| ==>
            && UnicodeToDots(b.lines[j][k].0) == infos[i].plateLines[j][k].dots[..6]
            && b.lines[j][k].1 == infos[i].plateLines[j][k].ch)
  {
    var info := infos[i];
    if k < |info.pageDots| {
      GlyphReadsBack(info.pageDots[k]);
    }
    if j < |info.plateLines| && k < |info.plateLines[j]| {
      assert LineDots(info.plateLines[j])[k] == info.plateLines[j][k].dots;
      GlyphReadsBack(info.plateLines[j][k].dots);
    }
  }

  /** The guide of the package's pages renders exactly when every cell of every plate, and every
      cell of the page numbers 1 to the plate count, has at least six dots. */
  lemma GuideRenderableIff(plates: seq<seq<Line>>, table: BrailleTable)
    ensures GuideRenderable(PagesInfo(plates, table)) <==>
      && (forall i, j, k :: 0 <= i < |plates| && 0 <= j < |plates[i]| && 0 <= k < |plates[i][j]| ==>
            |plates[i][j][k].dots| >= 6)
      && (forall n :: 1 <= n <= |plates| ==> Drawable(PageNumberCells(n, table)))
  {
    var infos := PagesInfo(plates, table);
    if GuideRenderable(infos) {
      forall i, j, k | 0 <= i < |plates| && 0 <= j < |plates[i]| && 0 <= k < |plates[i][j]|
        ensures |plates[i][j][k].dots| >= 6
      {
        assert PageDrawable(infos[i]);
        assert LineDots(infos[i].plateLines[j])[k] == plates[i][j][k].dots;
      }
      forall n | 1 <= n <= |plates|
        ensures Drawable(PageNumberCells(n, table))
      {
        assert PageDrawable(infos[n - 1]);
      }
    } else {
      var i :| 0 <= i < |infos| && !PageDrawable(infos[i]);
      if !Drawable(infos[i].pageDots) {
        assert !Drawable(PageNumberCells(i + 1, table));
      } else {
        var j :| 0 <= j < |plates[i]| && !Drawable(LineDots(plates[i][j]));
        var k :| 0 <= k < |plates[i][j]| && |LineDots(plates[i][j])[k]| < 6;
        assert |plates[i][j][k].dots| < 6;
      }
    }
  }

  /** `_generate_guide_html`, markup aside: the blocks of every page in order; `None` at the
      first cell with fewer than six dots, where `_dots_to_unicode` raises `IndexError`. */
  method GenerateGuide(infos: seq<PageInfo>) returns (guide: Option<seq<GuideBlock>>)
    ensures guide == if GuideRenderable(infos) then Some(GuideBlocks(infos)) else None
  {
    var blocks := [];
    for i := 0 to |infos|
      invariant GuideRenderable(infos[..i])
      invariant blocks == GuideBlocks(infos[..i])
    {
      var info := infos[i];
      var pageBraille := DrawRow(info.pageDots);
      if pageBraille.None? {
        assert !PageDrawable(infos[i]);
        return None;
      }
      var lines := [];
      for j := 0 to |info.plateLines|
        invariant forall j' :: 0 <= j' < j ==> Drawable(LineDots(info.plateLines[j']))
        invariant |lines| == j
        invariant forall j' :: 0 <= j' < j ==> lines[j'] == LineCells(info.plateLines[j'])
      {
        var cells := DrawLine(info.plateLines[j]);
        if cells.None? {
          assert !PageDrawable(infos[i]);
          return None;
        }
        lines := lines + [cells.value];
      }
      assert GuideBlockOf(info) == GuideBlock(info.pageNum, pageBraille.value, lines);
      assert infos[..i + 1] == infos[..i] + [info];
      blocks := blocks + [GuideBlock(info.pageNum, pageBraille.value, lines)];
    }
    assert infos[..|infos|] == infos;
    guide := Some(blocks);
  }

  /** The glyphs of a row, or `None` at the first cell with fewer than six dots. */
  method DrawRow(row: seq<Dots>) returns (s: Option<string>)
    ensures s == if Drawable(row) then Some(Glyphs(row)) else None
  {
    var acc := "";
    for k := 0 to |row|
      invariant Drawable(row[..k])
      invariant acc == Glyphs(row[..k])
    {
      if |row[k]| < 6 {
        return None;
      }
      acc := acc + [DotsToUnicode(row[k])];
    }
    assert row[..|row|] == row;
    s := Some(acc);
  }

  /** The glyph and character of each cell of a line, or `None` at the first short cell. */
  method DrawLine(line: Line) returns (cs: Option<seq<(char, string)>>)
    ensures cs == if Drawable(LineDots(line)) then Some(LineCells(line)) else None
  {
    var acc := [];
    for k := 0 to |line|
      invariant forall k' :: 0 <= k' < k ==> |line[k'].dots| >= 6
      invariant |acc| == k
      invariant forall k' :: 0 <= k' < k ==> acc[k'] == (DotsToUnicode(line[k'].dots), line[k'].ch)
    {
      if |line[k].dots| < 6 {
        assert LineDots(line)[k] == line[k].dots;
        return None;
      }
      acc := acc + [(DotsToUnicode(line[k].dots), line[k].ch)];
    }
    assert Drawable(LineDots(line));
    assert acc == LineCells(line);
    cs := Some(acc);
  }

  /** Each page's STL file; `None` where the plate's triangle count does not fit the file. */
  function PlateFiles(t: Trig, infos: seq<PageInfo>, thickness: real, pack: Vec3 -> seq<byte>)
    : (fs: seq<Option<seq<byte>>>)
    requires DomeScalable(t) && PacksTwelve(pack) && InfosPrintable(infos)
    ensures |fs| == |infos|
  {
    seq(|infos|, i requires 0 <= i < |infos| =>
      StlBytes(PlateTriangles(t, infos[i].bodyLinesDots, infos[i].pageDots, thickness), pack))
  }

  predicate AllEncoded(fs: seq<Option<seq<byte>>>)
  {
    forall i :: 0 <= i < |fs| ==> fs[i].Some?
  }

  /** How many files at the front can be encoded: the STL loop raises at the file after them. */
  function LeadingEncoded(fs: seq<Option<seq<byte>>>): (n: nat)
    ensures n <= |fs| && AllEncoded(fs[..n]) && (n < |fs| ==> fs[n].None?)
  {
    if fs == [] || fs[0].None? then 0
    else
      1 + LeadingEncoded(fs[1..])
  }

  /** The first file that cannot be encoded is the one after the leading encoded files. */
  lemma {:induction false} LeadingEncodedUnique(fs: seq<Option<seq<byte>>>, i: nat)
    requires i <= |fs| && AllEncoded(fs[..i]) && (i < |fs| ==> fs[i].None?)
    ensures LeadingEncoded(fs) == i
  {
    if i > 0 {
      assert fs[..i][0] == fs[0];
      var tail := fs[1..][..i - 1];
      forall k | 0 <= k < |tail|
        ensures tail[k].Some?
      {
        assert tail[k] == fs[..i][k + 1];
      }
      LeadingEncodedUnique(fs[1..], i - 1);
    } else if fs != [] {
      assert fs[0].None?;
    }
  }

  /** Every file can be encoded exactly when all of them lead. */
  lemma LeadingEncodedAll(fs: seq<Option<seq<byte>>>)
    ensures LeadingEncoded(fs) == |fs| <==> AllEncoded(fs)
  {
    if AllEncoded(fs) {
      LeadingEncodedUnique(fs, |fs|);
    } else {
      assert fs[..|fs|] == fs;
    }
  }

  function PlateEntries(fs: seq<Option<seq<byte>>>): (es: seq<Entry>)
    requires AllEncoded(fs)
    ensures |es| == |fs|
  {
    seq(|fs|, i requires 0 <= i < |fs| => Entry(PlateFileName(i + 1), Binary(fs[i].value)))
  }

  /** The zip file's entries and whether the export ran to the end. The file is opened before
      anything is written, so when a later step raises, the entries written before it stay in
      the file (`complete` is false). */
  datatype Archive = Archive(entries: seq<Entry>, complete: bool)

  /** The zip file `generate_package_from_plates` leaves behind: the text; then, if the guide
      renders (every cell has six dots), the guide and the STL file of each plate up to the first
      that cannot be encoded. The export completes when every plate's file is written. */
  function PackageArchive(t: Trig, plates: seq<seq<Line>>, originalText: string, table: BrailleTable,
                          thickness: real, pack: Vec3 -> seq<byte>): Archive
    requires DomeScalable(t) && PacksTwelve(pack) && PlatesPrintable(plates) && TablePrintable(table)
  {
    var text := Entry(TextEntryName, Text(originalText));
    var infos := PagesInfo(plates, table);
    if !GuideRenderable(infos) then Archive([text], false)
    else
      PagesPrintable(plates, table);
      var fs := PlateFiles(t, infos, thickness, pack);
      var n := LeadingEncoded(fs);
      Archive([text, Entry(GuideEntryName, Guide(GuideBlocks(infos)))] + PlateEntries(fs[..n]), n == |fs|)
  }

  /** The entry names are pairwise distinct. */
  lemma PlateFileNamesDistinct(m: nat, n: nat)
    ensures PlateFileName(m) == PlateFileName(n) <==> m == n
    ensures PlateFileName(n) != TextEntryName && PlateFileName(n) != GuideEntryName
  {
    Pad2Injective(m, n);
    var a, b := PlateFileName(m), PlateFileName(n);
    if a == b {
      assert a[6..|a| - 4] == Pad2(m);
      assert b[6..|b| - 4] == Pad2(n);
    }
    assert PlateFileName(n)[0] == 'p';
  }

  /** Entries named the text, the guide, then `plate_01.stl` onwards, cut off anywhere, have no
      name twice. */
  lemma EntryNamesDistinct(es: seq<Entry>)
    requires |es| >= 1 && es[0].name == TextEntryName
    requires |es| >= 2 ==> es[1].name == GuideEntryName
    requires forall i :: 2 <= i < |es| ==> es[i].name == PlateFileName(i - 1)
    ensures forall a, b :: 0 <= a < b < |es| ==> es[a].name != es[b].name
  {
    forall a, b | 0 <= a < b < |es|
      ensures es[a].name != es[b].name
    {
      if b >= 2 {
        PlateFileNamesDistinct(b - 1, b - 1);
        if a >= 2 {
          PlateFileNamesDistinct(a - 1, b - 1);
        }
      }
    }
  }

  /** Head entries followed by the plate entries: plate `k` is named after page `k + 1`. */
  lemma PlateEntriesAfterHead(head: seq<Entry>, fs: seq<Option<seq<byte>>>)
    requires AllEncoded(fs) && |head| == 2
    ensures var v := head + PlateEntries(fs);
      forall i :: 2 <= i < |v| ==> v[i].name == PlateFileName(i - 1)
  {
    var v := head + PlateEntries(fs);
    forall i | 2 <= i < |v|
      ensures v[i].name == PlateFileName(i - 1)
    {
      assert v[i] == PlateEntries(fs)[i - 2];
    }
  }

  /** The zip file holds the original text first, the guide sheet second, then each plate's STL
      file in plate order, named from `plate_01.stl`, with no name twice; a complete export has
      all `2 + plates` entries and a guide rendered from every page. */
  lemma PackageOrder(t: Trig, plates: seq<seq<Line>>, originalText: string, table: BrailleTable,
                     thickness: real, pack: Vec3 -> seq<byte>)
    requires DomeScalable(t) && PacksTwelve(pack) && PlatesPrintable(plates) && TablePrintable(table)
    ensures var a := PackageArchive(t, plates, originalText, table, thickness, pack);
      && 1 <= |a.entries| <= 2 + |plates|
      && a.entries[0] == Entry(TextEntryName, Text(originalText))
      && (|a.entries| >= 2 ==> a.entries[1].name == GuideEntryName)
      && (forall i :: 2 <= i < |a.entries| ==> a.entries[i].name == PlateFileName(i - 1))
      && (forall i, j :: 0 <= i < j < |a.entries| ==> a.entries[i].name != a.entries[j].name)
      && (a.complete ==>
            && |a.entries| == 2 + |plates|
            && GuideRenderable(PagesInfo(plates, table))
            && a.entries[1].content == Guide(GuideBlocks(PagesInfo(plates, table))))
  {
    var a := PackageArchive(t, plates, originalText, table, thickness, pack);
    var infos := PagesInfo(plates, table);
    if GuideRenderable(infos) {
      PagesPrintable(plates, table);
      var fs := PlateFiles(t, infos, thickness, pack);
      var n := LeadingEncoded(fs);
      var head := [Entry(TextEntryName, Text(originalText)), Entry(GuideEntryName, Guide(GuideBlocks(infos)))];
      assert a.entries == head + PlateEntries(fs[..n]);
      PlateEntriesAfterHead(head, fs[..n]);
    }
    EntryNamesDistinct(a.entries);
  }

  /** Where the export stops: it completes iff the guide renders and every plate's file can be
      encoded. If the guide raises, the file holds only the text. If an STL file raises, it holds
      the text, the guide and the files of the plates before it. */
  lemma WhereExportStops(t: Trig, plates: seq<seq<Line>>, originalText: string, table: BrailleTable,
                         thickness: real, pack: Vec3 -> seq<byte>)
    requires DomeScalable(t) && PacksTwelve(pack) && PlatesPrintable(plates) && TablePrintable(table)
    ensures var a := PackageArchive(t, plates, originalText, table, thickness, pack);
      var infos := PagesInfo(plates, table);
      && (!GuideRenderable(infos) ==> a == Archive([Entry(TextEntryName, Text(originalText))], false))
      && InfosPrintable(infos)
      && (GuideRenderable(infos) ==>
            var fs := PlateFiles(t, infos, thickness, pack);
            && (a.complete <==> AllEncoded(fs))
            && |a.entries| >= 2
            && (!a.complete ==> var k := |a.entries| - 2;
                  k < |plates| && AllEncoded(fs[..k]) && fs[k].None?))
  {
    var infos := PagesInfo(plates, table);
    PagesPrintable(plates, table);
    if GuideRenderable(infos) {
      var a := PackageArchive(t, plates, originalText, table, thickness, pack);
      var fs := PlateFiles(t, infos, thickness, pack);
      var n := LeadingEncoded(fs);
      var head := [Entry(TextEntryName, Text(originalText)), Entry(GuideEntryName, Guide(GuideBlocks(infos)))];
      assert a == Archive(head + PlateEntries(fs[..n]), n == |fs|);
      assert |a.entries| - 2 == n;
      LeadingEncodedAll(fs);
    }
  }

  /** A plate cell with fewer than six dots makes the export raise while rendering the guide:
      the zip file is left holding only the original text. */
  lemma ShortCellRaises(t: Trig, plates: seq<seq<Line>>, originalText: string, table: BrailleTable,
                        thickness: real, pack: Vec3 -> seq<byte>, i: nat, j: nat, k: nat)
    requires DomeScalable(t) && PacksTwelve(pack) && PlatesPrintable(plates) && TablePrintable(table)
    requires i < |plates| && j < |plates[i]| && k < |plates[i][j]| && |plates[i][j][k].dots| < 6
    ensures PackageArchive(t, plates, originalText, table, thickness, pack)
              == Archive([Entry(TextEntryName, Text(originalText))], false)
  {
    GuideRenderableIff(plates, table);
  }

  /** Gathers each plate's page number and dot patterns for the guide and the STL files. */
  method CollectPagesInfo(plates: seq<seq<Line>>, table: BrailleTable) returns (infos: seq<PageInfo>)
    ensures infos == PagesInfo(plates, table)
  {
    infos := [];
    for i := 0 to |plates|
      invariant infos == PagesInfo(plates, table)[..i]
    {
      var pageNum := i + 1;
      var pageNumDots := IntToBrailleDots(pageNum, table);
      var plateBodyDots := [];
      for j := 0 to |plates[i]|
        invariant plateBodyDots == PlateDots(plates[i])[..j]
      {
        plateBodyDots := plateBodyDots + [LineDots(plates[i][j])];
      }
      assert plateBodyDots == PlateDots(plates[i]);
      infos := infos + [PageInfo(pageNum, plates[i], pageNumDots, plateBodyDots)];
      assert PagesInfo(plates, table)[..i + 1] == PagesInfo(plates, table)[..i] + [PageInfoOf(plates, i, table)];
    }
  }

  /** Appending one encoded file to the entries. */
  lemma PlateEntriesSnoc(fs: seq<Option<seq<byte>>>, i: nat)
    requires i < |fs| && AllEncoded(fs[..i]) && fs[i].Some?
    ensures AllEncoded(fs[..i + 1])
    ensures PlateEntries(fs[..i + 1]) == PlateEntries(fs[..i]) + [Entry(PlateFileName(i + 1), Binary(fs[i].value))]
  {
    assert forall k :: 0 <= k < i ==> fs[..i][k] == fs[..i + 1][k];
  }

  /** One page's STL file, as `_create_plate_stl` builds it. */
  method PlateFileAt(t: Trig, infos: seq<PageInfo>, i: nat, thickness: real, pack: Vec3 -> seq<byte>)
    returns (data: Option<seq<byte>>)
    requires DomeScalable(t) && PacksTwelve(pack) && InfosPrintable(infos) && i < |infos|
    ensures data == PlateFiles(t, infos, thickness, pack)[i]
  {
    var info := infos[i];
    data := CreatePlateStl(t, info.bodyLinesDots, info.pageDots, thickness, pack);
  }

  /** The loop that writes one STL entry per page; it stops at the first plate that cannot be
      encoded, with the entries of the plates before it written. */
  method WritePlateFiles(t: Trig, infos: seq<PageInfo>, thickness: real, pack: Vec3 -> seq<byte>)
    returns (files: seq<Entry>, complete: bool)
    requires DomeScalable(t) && PacksTwelve(pack) && InfosPrintable(infos)
    requires forall i :: 0 <= i < |infos| ==> infos[i].pageNum == i + 1
    ensures var fs := PlateFiles(t, infos, thickness, pack);
      var n := LeadingEncoded(fs);
      files == PlateEntries(fs[..n]) && complete == (n == |fs|)
  {
    ghost var fs := PlateFiles(t, infos, thickness, pack);
    files := [];
    for i := 0 to |infos|
      invariant AllEncoded(fs[..i])
      invariant files == PlateEntries(fs[..i])
    {
      var data := PlateFileAt(t, infos, i, thickness, pack);
      if data.None? {
        LeadingEncodedUnique(fs, i);
        return files, false;
      }
      files := files + [Entry(PlateFileName(infos[i].pageNum), Binary(data.value))];
      PlateEntriesSnoc(fs, i);
    }
    assert fs[..|infos|] == fs;
    LeadingEncodedUnique(fs, |fs|);
    complete := true;
  }

  /** `generate_package_from_plates`: opens the zip file, writes the text, the guide, then one STL
      file per plate; a raise leaves the entries written before it in the file. */
  method GeneratePackageFromPlates(t: Trig, plates: seq<seq<Line>>, originalText: string,
                                   table: BrailleTable, thickness: real, pack: Vec3 -> seq<byte>)
    returns (archive: Archive)
    requires DomeScalable(t) && PacksTwelve(pack) && PlatesPrintable(plates) && TablePrintable(table)
    ensures archive == PackageArchive(t, plates, originalText, table, thickness, pack)
  {
    var written := [Entry(TextEntryName, Text(originalText))];
    var infos := CollectPagesInfo(plates, table);
    var guide := GenerateGuide(infos);
    if guide.None? {
      return Archive(written, false);
    }
    written := written + [Entry(GuideEntryName, Guide(guide.value))];
    PagesPrintable(plates, table);
    var files, complete := WritePlateFiles(t, infos, thickness, pack);
    assert written == [Entry(TextEntryName, Text(originalText)), Entry(GuideEntryName, Guide(GuideBlocks(infos)))];
    archive := Archive(written + files, complete);
  }

  // ---------------------------------------------------------------------------
  // The legacy entry point

  /** `generate_package`: the flat cell stream cut into fixed runs of `maxChars` cells, the runs
      into plates of `maxLines`, with no regard for prefix cells; `None` when either step is zero. */
  function LegacyPlates(cells: seq<Cell>, maxChars: int, maxLines: int): Option<seq<seq<Line>>>
  {
    var lines := PlateSlices(cells, maxChars);
    if lines.None? then None else PlateSlices(lines.value, maxLines)
  }

  /** Every element of a slice of `xs` is an element of `xs`. */
  lemma SlicesMembers<T>(xs: seq<T>, k: int)
    requires k != 0
    ensures var r := PlateSlices(xs, k).value;
      forall j, x :: 0 <= j < |r| && x in r[j] ==> x in xs
  {
    var r := PlateSlices(xs, k).value;
    forall j, x | 0 <= j < |r| && x in r[j]
      ensures x in xs
    {
      var i :| 0 <= i < |r[j]| && r[j][i] == x;
      assert r[j][i] == xs[j * k + i];
    }
  }

  /** Every cell of the stream can be embossed. */
  predicate CellsPrintable(cells: seq<Cell>)
  {
    forall c :: c in cells ==> RaisedWithinSix(c.dots)
  }

  lemma LegacyPrintable(cells: seq<Cell>, maxChars: int, maxLines: int)
    requires CellsPrintable(cells) && LegacyPlates(cells, maxChars, maxLines).Some?
    ensures PlatesPrintable(LegacyPlates(cells, maxChars, maxLines).value)
  {
    var lines: seq<Line> := PlateSlices(cells, maxChars).value;
    var plates: seq<seq<Line>> := PlateSlices(lines, maxLines).value;
    SlicesMembers(cells, maxChars);
    SlicesMembers(lines, maxLines);
    forall i, j, k | 0 <= i < |plates| && 0 <= j < |plates[i]| && 0 <= k < |plates[i][j]|
      ensures RaisedWithinSix(plates[i][j][k].dots)
    {
      assert plates[i][j] in plates[i];
      assert plates[i][j][k] in plates[i][j];
    }
  }

  /** The legacy export: cut the stream, then write the package of the resulting plates. A zero
      step raises while cutting, before the zip file is opened (`None`). */
  method GeneratePackage(t: Trig, cells: seq<Cell>, maxChars: int, maxLines: int, originalText: string,
                         table: BrailleTable, thickness: real, pack: Vec3 -> seq<byte>)
    returns (archive: Option<Archive>)
    requires DomeScalable(t) && PacksTwelve(pack) && CellsPrintable(cells) && TablePrintable(table)
    ensures var plates := LegacyPlates(cells, maxChars, maxLines);
      && (plates.None? <==> archive.None?)
      && (plates.Some? ==>
            && PlatesPrintable(plates.value)
            && archive == Some(PackageArchive(t, plates.value, originalText, table, thickness, pack)))
  {
    if maxChars == 0 || maxLines == 0 {
      return None;
    }
    var lines := PlateSlices(cells, maxChars).value;
    var plates := PlateSlices(lines, maxLines).value;
    LegacyPrintable(cells, maxChars, maxLines);
    var written := GeneratePackageFromPlates(t, plates, originalText, table, thickness, pack);
    archive := Some(written);
  }

  /** Without prefix cells the legacy cut and the rule-aware layout give the same plates. */
  lemma LegacyAgreesWithoutPrefixes(cells: seq<Cell>, prefixes: set<Dots>, maxChars: int, maxLines: int)
    requires maxChars > 0
    requires forall k :: 0 <= k < |cells| ==> cells[k].dots !in prefixes
    ensures LegacyPlates(cells, maxChars, maxLines) == Editor.PlatesOf(cells, prefixes, maxChars, maxLines)
  {
    NoPrefixIsFixedChunks(cells, prefixes, maxChars);
  }

  /** The legacy cut splits a prefix from its base: with 4 cells per line and one line per plate,
      three plain cells then a prefix and its base give plates [a, b, c, p] and [d], where the
      rule-aware layout gives [a, b, c] and [p, d]. */
  lemma LegacySplitsPrefixUnit(a: Cell, b: Cell, c: Cell, p: Cell, d: Cell, prefixes: set<Dots>)
    requires a.dots !in prefixes && b.dots !in prefixes && c.dots !in prefixes
    requires p.dots in prefixes
    ensures LegacyPlates([a, b, c, p, d], 4, 1) == Some([[[a, b, c, p]], [[d]]])
    ensures Editor.PlatesOf([a, b, c, p, d], prefixes, 4, 1) == Some([[[a, b, c]], [[p, d]]])
  {
    var cells := [a, b, c, p, d];
    assert cells[..4] == [a, b, c, p] && cells[4..] == [d];
    assert Chunks(cells[4..], 4) == [[d]];
    assert Chunks(cells, 4) == [[a, b, c, p], [d]];
    var lines := [[a, b, c, p], [d]];
    assert lines[..1] == [[a, b, c, p]] && lines[1..] == [[d]];
    assert Chunks(lines[1..], 1) == [[[d]]];
    assert Chunks(lines, 1) == [[[a, b, c, p]], [[d]]];
    ExamplePrefixAtLineEnd(a, b, c, p, d, prefixes);
    var ruled := [[a, b, c], [p, d]];
    assert ruled[..1] == [[a, b, c]] && ruled[1..] == [[p, d]];
    assert Chunks(ruled[1..], 1) == [[[p, d]]];
    assert Chunks(ruled, 1) == [[[a, b, c]], [[p, d]]];
  }
}
