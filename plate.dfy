/**
 * `_create_plate_stl`: one plate's solid — the slab with its hole, the ring around the hole, the
 * page number in the left column and the body lines to its right — encoded as binary STL.
 */
module PlateStl {
  import opened SeqUtil
  import opened Braille
  import opened Mesh
  import opened PlateLayout
  import opened StlEncoding

  /** Every cell of a row can be embossed: no raised entry past the sixth. */
  predicate RowPrintable(cells: seq<Dots>)
  {
    forall k :: 0 <= k < |cells| ==> RaisedWithinSix(cells[k])
  }

  predicate BodyPrintable(body: seq<seq<Dots>>)
  {
    forall i :: 0 <= i < |body| ==> RowPrintable(body[i])
  }

  /** The domes of the first `n` cells of a row whose first cell starts at `x0`, on centre row `cy`. */
  function RowTriangles(t: Trig, cells: seq<Dots>, n: nat, x0: real, cy: real, z: real): seq<Triangle>
    requires DomeScalable(t) && RowPrintable(cells) && n <= |cells|
  {
    if n == 0 then []
    else
      var o := CharOrigin(x0, cy, n - 1);
      RowTriangles(t, cells, n - 1, x0, cy, z)
      + CharTriangles(t, cells[n - 1], |cells[n - 1]|, o.0, o.1, z, DotBaseDia, DotHeight, DotPitchX, DotPitchY)
  }

  /** The domes of the first `n` body lines of a plate `hgt` high. */
  function BodyTriangles(t: Trig, body: seq<seq<Dots>>, n: nat, x0: real, hgt: real, z: real)
    : seq<Triangle>
    requires DomeScalable(t) && BodyPrintable(body) && n <= |body|
  {
    if n == 0 then []
    else BodyTriangles(t, body, n - 1, x0, hgt, z)
         + RowTriangles(t, body[n - 1], |body[n - 1]|, x0, LineCenterY(hgt, n - 1), z)
  }

  /** Every triangle of a plate, in the order the generator emits them. */
  function PlateTriangles(t: Trig, body: seq<seq<Dots>>, pageDots: seq<Dots>, thickness: real)
    : seq<Triangle>
    requires DomeScalable(t) && BodyPrintable(body) && RowPrintable(pageDots)
  {
    var hgt := TotalHeight(|body|);
    var width := TotalWidth(|pageDots|, MaxLen(body));
    var hcy := HoleCenterY(hgt);
    SlabTriangles(t, width, hgt, thickness, CornerRadius, HoleCenterX(), hcy, HoleRadius)
    + TubeTriangles(t, HoleCenterX(), hcy, thickness, HoleRadius, HoleRadius + HoleRingWidth, DotHeight)
    + RowTriangles(t, pageDots, |pageDots|, PageNumX(|pageDots|), PageNumY, thickness)
    + BodyTriangles(t, body, |body|, BodyStartX(|pageDots|), hgt, thickness)
  }

  /** The raised dots of a row and of a whole body. */
  function RowRaised(cells: seq<Dots>): nat
  {
    if cells == [] then 0 else RowRaised(cells[..|cells| - 1]) + CountRaised(cells[|cells| - 1])
  }

  function BodyRaised(body: seq<seq<Dots>>): nat
  {
    if body == [] then 0 else BodyRaised(body[..|body| - 1]) + RowRaised(body[|body| - 1])
  }

  lemma {:induction false} RowCount(t: Trig, cells: seq<Dots>, n: nat, x0: real, cy: real, z: real)
    requires DomeScalable(t) && RowPrintable(cells) && n <= |cells|
    ensures |RowTriangles(t, cells, n, x0, cy, z)| == 312 * RowRaised(cells[..n])
  {
    if n > 0 {
      RowCount(t, cells, n - 1, x0, cy, z);
      assert cells[..n][..n - 1] == cells[..n - 1];
      var o := CharOrigin(x0, cy, n - 1);
      var dots := cells[n - 1];
      CharCount(t, dots, |dots|, o.0, o.1, z, DotBaseDia, DotHeight, DotPitchX, DotPitchY);
      assert dots[..|dots|] == dots;
    }
  }

  lemma {:induction false} BodyCount(t: Trig, body: seq<seq<Dots>>, n: nat, x0: real, hgt: real, z: real)
    requires DomeScalable(t) && BodyPrintable(body) && n <= |body|
    ensures |BodyTriangles(t, body, n, x0, hgt, z)| == 312 * BodyRaised(body[..n])
  {
    if n > 0 {
      BodyCount(t, body, n - 1, x0, hgt, z);
      assert body[..n][..n - 1] == body[..n - 1];
      var row := body[n - 1];
      RowCount(t, row, |row|, x0, LineCenterY(hgt, n - 1), z);
      assert row[..|row|] == row;
    }
  }

  /** A plate has the slab's 1056 triangles, the ring's 192 and 312 for each raised dot of the
      page number and of the body. */
  lemma PlateCount(t: Trig, body: seq<seq<Dots>>, pageDots: seq<Dots>, thickness: real)
    requires DomeScalable(t) && BodyPrintable(body) && RowPrintable(pageDots)
    ensures |PlateTriangles(t, body, pageDots, thickness)|
         == 1056 + 192 + 312 * (RowRaised(pageDots) + BodyRaised(body))
  {
    var hgt := TotalHeight(|body|);
    var width := TotalWidth(|pageDots|, MaxLen(body));
    var hcy := HoleCenterY(hgt);
    SlabFacts(t, width, hgt, thickness, CornerRadius, HoleCenterX(), hcy, HoleRadius);
    TubeFacts(t, HoleCenterX(), hcy, thickness, HoleRadius, HoleRadius + HoleRingWidth, DotHeight);
    RowCount(t, pageDots, |pageDots|, PageNumX(|pageDots|), PageNumY, thickness);
    BodyCount(t, body, |body|, BodyStartX(|pageDots|), hgt, thickness);
    assert pageDots[..|pageDots|] == pageDots;
    assert body[..|body|] == body;
  }

  /** One row of characters, `CharPitch` apart. */
  method AddRow(tris: TriangleList, t: Trig, cells: seq<Dots>, x0: real, cy: real, z: real)
    requires DomeScalable(t) && RowPrintable(cells)
    modifies tris
    ensures tris.items == old(tris.items) + RowTriangles(t, cells, |cells|, x0, cy, z)
  {
    ghost var start := tris.items;
    var x := x0;
    var y := cy - DotPitchY;
    for k := 0 to |cells|
      invariant x == x0 + (k as real) * CharPitch
      invariant tris.items == start + RowTriangles(t, cells, k, x0, cy, z)
    {
      AddBrailleChar(tris, t, cells[k], x, y, z, DotBaseDia, DotHeight, DotPitchX, DotPitchY);
      AppendAssoc(start, RowTriangles(t, cells, k, x0, cy, z),
                  CharTriangles(t, cells[k], |cells[k]|, x, y, z, DotBaseDia, DotHeight, DotPitchX, DotPitchY));
      x := x + CharPitch;
    }
  }

  /** The body lines, top to bottom, each starting at `x0`. */
  method AddBody(tris: TriangleList, t: Trig, body: seq<seq<Dots>>, x0: real, hgt: real, z: real)
    requires DomeScalable(t) && BodyPrintable(body)
    modifies tris
    ensures tris.items == old(tris.items) + BodyTriangles(t, body, |body|, x0, hgt, z)
  {
    ghost var start := tris.items;
    var firstLineCenterY := hgt - MarginTop - LineHeight / 2.0;
    for i := 0 to |body|
      invariant tris.items == start + BodyTriangles(t, body, i, x0, hgt, z)
    {
      var lineCenterY := firstLineCenterY - (i as real) * LinePitch;
      AddRow(tris, t, body[i], x0, lineCenterY, z);
      AppendAssoc(start, BodyTriangles(t, body, i, x0, hgt, z),
                  RowTriangles(t, body[i], |body[i]|, x0, LineCenterY(hgt, i), z));
    }
  }

  /** The slab with its hole and the ring around the hole. */
  method AddBase(tris: TriangleList, t: Trig, totalWidth: real, totalHeight: real, thickness: real)
    modifies tris
    ensures tris.items == old(tris.items)
      + SlabTriangles(t, totalWidth, totalHeight, thickness, CornerRadius, HoleCenterX(), HoleCenterY(totalHeight), HoleRadius)
      + TubeTriangles(t, HoleCenterX(), HoleCenterY(totalHeight), thickness, HoleRadius, HoleRadius + HoleRingWidth, DotHeight)
  {
    var holeCx := MarginLeft + (HoleRadius + HoleRingWidth);
    var holeCy := totalHeight - (MarginTop + HoleRadius + HoleRingWidth);
    AddPlateWithHole(tris, t, totalWidth, totalHeight, thickness, CornerRadius, holeCx, holeCy, HoleRadius);
    AddTube(tris, t, holeCx, holeCy, thickness, HoleRadius, HoleRadius + HoleRingWidth, DotHeight);
  }

  /** The page number, centred in the left column when it is narrower. */
  method AddPageNumber(tris: TriangleList, t: Trig, pageDots: seq<Dots>, thickness: real)
    requires DomeScalable(t) && RowPrintable(pageDots)
    modifies tris
    ensures tris.items == old(tris.items)
      + RowTriangles(t, pageDots, |pageDots|, PageNumX(|pageDots|), PageNumY, thickness)
  {
    var pageNumY := MarginBottom + LineHeight / 2.0;
    var pageNumX := MarginLeft;
    var leftSide := LeftSideWidth(|pageDots|);
    var pageContentWidth := (|pageDots| as real) * CharPitch;
    if pageContentWidth < leftSide {
      pageNumX := pageNumX + (leftSide - pageContentWidth) / 2.0;
    }
    AddRow(tris, t, pageDots, pageNumX, pageNumY, thickness);
  }

  /** The plate's triangles are its base, then its page number, then its body. */
  lemma PlateParts(t: Trig, body: seq<seq<Dots>>, pageDots: seq<Dots>, thickness: real)
    requires DomeScalable(t) && BodyPrintable(body) && RowPrintable(pageDots)
    ensures var hgt := TotalHeight(|body|);
      PlateTriangles(t, body, pageDots, thickness)
      == (SlabTriangles(t, TotalWidth(|pageDots|, MaxLen(body)), hgt, thickness, CornerRadius, HoleCenterX(), HoleCenterY(hgt), HoleRadius)
          + TubeTriangles(t, HoleCenterX(), HoleCenterY(hgt), thickness, HoleRadius, HoleRadius + HoleRingWidth, DotHeight))
         + RowTriangles(t, pageDots, |pageDots|, PageNumX(|pageDots|), PageNumY, thickness)
         + BodyTriangles(t, body, |body|, BodyStartX(|pageDots|), hgt, thickness)
  {
  }

  /** The four parts in order, from the plate's dimensions. */
  method BuildPlate(tris: TriangleList, t: Trig, body: seq<seq<Dots>>, pageDots: seq<Dots>,
                    thickness: real, totalWidth: real, totalHeight: real)
    requires DomeScalable(t) && BodyPrintable(body) && RowPrintable(pageDots)
    requires totalWidth == TotalWidth(|pageDots|, MaxLen(body))
    requires totalHeight == TotalHeight(|body|)
    modifies tris
    ensures tris.items == old(tris.items) + PlateTriangles(t, body, pageDots, thickness)
  {
    ghost var start := tris.items;
    ghost var slab := SlabTriangles(t, totalWidth, totalHeight, thickness, CornerRadius, HoleCenterX(),
                                    HoleCenterY(totalHeight), HoleRadius);
    ghost var tube := TubeTriangles(t, HoleCenterX(), HoleCenterY(totalHeight), thickness, HoleRadius,
                                    HoleRadius + HoleRingWidth, DotHeight);
    ghost var page := RowTriangles(t, pageDots, |pageDots|, PageNumX(|pageDots|), PageNumY, thickness);
    ghost var lines := BodyTriangles(t, body, |body|, BodyStartX(|pageDots|), totalHeight, thickness);
    AddBase(tris, t, totalWidth, totalHeight, thickness);
    AppendAssoc(start, slab, tube);
    AddPageNumber(tris, t, pageDots, thickness);
    AppendAssoc(start, slab + tube, page);
    AddBody(tris, t, body, BodyStartX(|pageDots|), totalHeight, thickness);
    AppendAssoc(start, slab + tube + page, lines);
    PlateParts(t, body, pageDots, thickness);
  }

  /** `_create_plate_stl`: the dimensions, the solid, then its STL bytes; `None` when the
      triangle count does not fit the file's 32-bit field. */
  method CreatePlateStl(t: Trig, body: seq<seq<Dots>>, pageDots: seq<Dots>, thickness: real,
                        pack: Vec3 -> seq<byte>)
    returns (data: Option<seq<byte>>)
    requires DomeScalable(t) && BodyPrintable(body) && RowPrintable(pageDots) && PacksTwelve(pack)
    ensures data == StlBytes(PlateTriangles(t, body, pageDots, thickness), pack)
  {
    var leftSide := RealMax(HoleDia + HoleRingWidth * 2.0 + 4.0, (|pageDots| as real) * CharPitch);
    if leftSide < LeftFloor {
      leftSide := LeftFloor;
    }
    var numLines := |body|;
    var maxLineChars := MaxLineChars(body);
    var bodyWidth := (maxLineChars as real) * CharPitch;
    var totalWidth := MarginLeft + leftSide + bodyWidth + MarginRight;
    var totalHeight := MarginTop + LineHeight + ((numLines as int - 1) as real) * LinePitch + MarginBottom;
    if totalHeight < MinHeightForHole {
      totalHeight := MinHeightForHole;
    }
    var tris := new TriangleList();
    BuildPlate(tris, t, body, pageDots, thickness, totalWidth, totalHeight);
    assert [] + PlateTriangles(t, body, pageDots, thickness) == PlateTriangles(t, body, pageDots, thickness);
    data := EncodeStl(tris.items, pack);
  }
}
