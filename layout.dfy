/**
 * The dimensions of one plate, in millimetres: a left column that holds the hanging hole and the
 * page number, then the body lines, with a 4 mm margin all round. The arithmetic is on exact
 * reals; the source computes it in floating point, where every constant involved is exact.
 */
module PlateLayout {

  const DotBaseDia: real := 1.6
  const DotHeight: real := 0.5
  const DotPitchX: real := 2.2
  const DotPitchY: real := 2.4
  const CharPitch: real := 6.0
  const LineHeight: real := 10.0
  const LinePitch: real := 12.0

  const MarginTop: real := 4.0
  const MarginBottom: real := 4.0
  const MarginRight: real := 4.0
  const MarginLeft: real := 4.0

  const HoleDia: real := 5.0
  const HoleRadius: real := HoleDia / 2.0
  const HoleRingWidth: real := 1.5
  /** The outer radius of the ring that reinforces the hole. */
  const RingOuter: real := HoleRadius + HoleRingWidth
  const CornerRadius: real := 3.0

  /** The narrowest left column. */
  const LeftFloor: real := 15.0
  /** The lowest plate: the reinforced hole and 2 mm either side. */
  const MinHeightForHole: real := (HoleRadius + HoleRingWidth) * 2.0 + 4.0

  function RealMax(a: real, b: real): real
  {
    if a >= b then a else b
  }

  /** The width of the left column: wide enough for the page number's cells and never below
      15 mm (the hole's own demand, 12 mm, is always below that floor). */
  function LeftSideWidth(pageCells: nat): (w: real)
    ensures w >= LeftFloor && w >= (pageCells as real) * CharPitch
    ensures w == LeftFloor || w == (pageCells as real) * CharPitch
  {
    var w := RealMax(HoleDia + HoleRingWidth * 2.0 + 4.0, (pageCells as real) * CharPitch);
    if w < LeftFloor then LeftFloor else w
  }

  /** The length of the longest line, 0 for no lines. */
  function MaxLen<T>(lines: seq<seq<T>>): (m: nat)
    ensures forall i :: 0 <= i < |lines| ==> |lines[i]| <= m
    ensures lines == [] ==> m == 0
    ensures lines != [] ==> exists i :: 0 <= i < |lines| && |lines[i]| == m
  {
    if lines == [] then 0
    else
      var m := MaxLen(lines[..|lines| - 1]);
      var l := |lines[|lines| - 1]|;
      if m >= l then m else l
  }

  /** The loop over the body lines that finds the longest. */
  method MaxLineChars<T>(lines: seq<seq<T>>) returns (m: nat)
    ensures m == MaxLen(lines)
  {
    m := 0;
    for i := 0 to |lines|
      invariant m == MaxLen(lines[..i])
    {
      assert lines[..i + 1][..i] == lines[..i];
      m := if m >= |lines[i]| then m else |lines[i]|;
    }
    assert lines[..|lines|] == lines;
  }

  function TotalWidth(pageCells: nat, maxChars: nat): real
  {
    MarginLeft + LeftSideWidth(pageCells) + (maxChars as real) * CharPitch + MarginRight
  }

  /** The height of a plate of `numLines` lines; the floor only applies to a plate without lines,
      since one line already needs 18 mm. */
  function TotalHeight(numLines: nat): (hgt: real)
    ensures hgt >= MinHeightForHole
    ensures hgt == MinHeightForHole <==> numLines == 0
  {
    var hgt := MarginTop + LineHeight + ((numLines as int - 1) as real) * LinePitch + MarginBottom;
    if hgt < MinHeightForHole then MinHeightForHole else hgt
  }

  /** The centre of the hole: the ring touches the left margin and the top margin. */
  function HoleCenterX(): real
  {
    MarginLeft + (HoleRadius + HoleRingWidth)
  }

  function HoleCenterY(totalHeight: real): real
  {
    totalHeight - (MarginTop + HoleRadius + HoleRingWidth)
  }

  /** The baseline row of the page number, in the bottom left of the plate. */
  const PageNumY: real := MarginBottom + LineHeight / 2.0

  /** The left end of the page number: centred in the left column when it is narrower. */
  function PageNumX(pageCells: nat): (x: real)
    ensures MarginLeft <= x
    ensures x + (pageCells as real) * CharPitch <= MarginLeft + LeftSideWidth(pageCells)
    ensures x - MarginLeft == MarginLeft + LeftSideWidth(pageCells) - (x + (pageCells as real) * CharPitch)
  {
    var width := (pageCells as real) * CharPitch;
    var left := LeftSideWidth(pageCells);
    if width < left then MarginLeft + (left - width) / 2.0 else MarginLeft
  }

  function BodyStartX(pageCells: nat): real
  {
    MarginLeft + LeftSideWidth(pageCells)
  }

  /** The centre row of body line `i`, counted from the top. */
  function LineCenterY(totalHeight: real, i: nat): real
  {
    totalHeight - MarginTop - LineHeight / 2.0 - (i as real) * LinePitch
  }

  /** The lower left corner of character `k` of a row that starts at `x0` on centre row `cy`. */
  function CharOrigin(x0: real, cy: real, k: nat): (real, real)
  {
    (x0 + (k as real) * CharPitch, cy - DotPitchY)
  }

  /** Every body line fits between the left column and the right margin: the plate is exactly as
      wide as the longest line needs. */
  lemma LinesFitWidth<T>(body: seq<seq<T>>, pageCells: nat)
    ensures var w := TotalWidth(pageCells, MaxLen(body));
      && (forall i :: 0 <= i < |body| ==>
            BodyStartX(pageCells) + (|body[i]| as real) * CharPitch <= w - MarginRight)
      && (body != [] ==>
            exists i :: 0 <= i < |body|
              && BodyStartX(pageCells) + (|body[i]| as real) * CharPitch == w - MarginRight)
  {
    var m := MaxLen(body);
    forall i | 0 <= i < |body|
      ensures (|body[i]| as real) * CharPitch <= (m as real) * CharPitch
    {
    }
  }

  /** Every body line's band of `LineHeight` lies inside the top and bottom margins; the first
      touches the top margin and the last the bottom margin. */
  lemma LinesFitHeight(numLines: nat)
    requires numLines >= 1
    ensures var hgt := TotalHeight(numLines);
      && (forall i :: 0 <= i < numLines ==>
            MarginBottom <= LineCenterY(hgt, i) - LineHeight / 2.0
            && LineCenterY(hgt, i) + LineHeight / 2.0 <= hgt - MarginTop)
      && LineCenterY(hgt, 0) + LineHeight / 2.0 == hgt - MarginTop
      && LineCenterY(hgt, numLines - 1) - LineHeight / 2.0 == MarginBottom
  {
  }

  /** The last body line shares its centre row with the page number. */
  lemma BottomLineOnPageNumberRow(numLines: nat)
    requires numLines >= 1
    ensures LineCenterY(TotalHeight(numLines), numLines - 1) == PageNumY
  {
  }

  /** The reinforcing ring lies inside the plate and inside the left column, whatever the number
      of lines and the page number's length. */
  lemma RingInsideLeftColumn(numLines: nat, pageCells: nat)
    ensures var hgt := TotalHeight(numLines);
      && HoleCenterX() - RingOuter == MarginLeft
      && HoleCenterX() + RingOuter <= MarginLeft + LeftSideWidth(pageCells)
      && HoleCenterY(hgt) + RingOuter == hgt - MarginTop
      && 0.0 <= HoleCenterY(hgt) - RingOuter
  {
  }

  // ---------------------------------------------------------------------------
  // The hole and the page number

  /** The ring's disc lies wholly above the page number's row. */
  predicate RingClearsPageNumber(totalHeight: real)
  {
    HoleCenterY(totalHeight) - RingOuter >= PageNumY + LineHeight / 2.0
  }

  /** As written, the hole's ring and the page number's row overlap on every plate with fewer
      than two lines. */
  lemma RingClearsPageNumberIff(numLines: nat)
    ensures RingClearsPageNumber(TotalHeight(numLines)) <==> numLines >= 2
  {
  }

  /** The position of the dot at offset `(ox, oy)` in the first page-number cell lies within the
      hole's radius, on a plate of height `hgt` with `pageCells` page-number cells. */
  predicate PageDotInHole(pageCells: nat, ox: real, oy: real, hgt: real)
  {
    var dx := PageNumX(pageCells) + ox + DotBaseDia / 2.0 - HoleCenterX();
    var dy := PageNumY - DotPitchY + oy + DotBaseDia / 2.0 - HoleCenterY(hgt);
    dx * dx + dy * dy < HoleRadius * HoleRadius
  }

  /** On a one-line plate numbered 1 to 9 (two page-number cells), the positions of dots 2, 4
      and 5 of the first cell lie inside the hole. The Japanese number sign (dots 3-4-5-6) raises
      dots 4 and 5, so those domes stand over the hole. */
  lemma PageNumberDotOverHole()
    ensures PageDotInHole(2, 0.0, DotPitchY, TotalHeight(1))
    ensures PageDotInHole(2, DotPitchX, 2.0 * DotPitchY, TotalHeight(1))
    ensures PageDotInHole(2, DotPitchX, DotPitchY, TotalHeight(1))
  {
    assert PageNumX(2) == 5.5;
  }

  /** The lowest plate whose ring clears the page number's row. */
  const MinHeightClearingPageNumber: real := PageNumY + LineHeight / 2.0 + 2.0 * RingOuter + MarginTop

  /** A height floor that also keeps the hole above the page number; plates of two or more lines
      keep their height. */
  function CorrectedTotalHeight(numLines: nat): (hgt: real)
    ensures hgt >= TotalHeight(numLines)
    ensures RingClearsPageNumber(hgt)
    ensures 0.0 <= HoleCenterY(hgt) - RingOuter && HoleCenterY(hgt) + RingOuter == hgt - MarginTop
    ensures numLines >= 2 ==> hgt == TotalHeight(numLines)
  {
    RealMax(TotalHeight(numLines), MinHeightClearingPageNumber)
  }
}
