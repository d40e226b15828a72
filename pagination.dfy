/** The pagination engine: cells are grouped into units that are never broken, units are
    packed greedily into lines, and lines are cut into plates. */
module Pagination {
  import opened Braille
  import opened SeqUtil

  /** One or two consecutive cells that must stay on one line. */
  type Unit = seq<Cell>

  /** One embossed line of cells. */
  type Line = seq<Cell>

  // ---------------------------------------------------------------------------
  // Step 1: units

  /** The unit sequence of a cell stream: a cell whose dots are one of the prefix patterns
      and that has a successor is glued to that successor; every other cell is a unit alone. */
  function Units(cells: seq<Cell>, prefixes: set<Dots>): (us: seq<Unit>)
    ensures forall k :: 0 <= k < |us| ==> 1 <= |us[k]| <= 2
    decreases |cells|
  {
    if cells == [] then []
    else
      var n := if cells[0].dots in prefixes && |cells| > 1 then 2 else 1;
      [cells[..n]] + Units(cells[n..], prefixes)
  }

  /** Units lose, duplicate and reorder nothing: they concatenate back to the cell stream. */
  lemma {:induction false} UnitsConcat(cells: seq<Cell>, prefixes: set<Dots>)
    ensures Concat(Units(cells, prefixes)) == cells
    decreases |cells|
  {
    if cells != [] {
      var n := if cells[0].dots in prefixes && |cells| > 1 then 2 else 1;
      var rest := Units(cells[n..], prefixes);
      UnitsConcat(cells[n..], prefixes);
      assert ([cells[..n]] + rest)[1..] == rest;
      assert cells == cells[..n] + cells[n..];
    }
  }

  /** A unit has two cells exactly when its first cell is a prefix and a successor exists:
      a two-cell unit always starts with a prefix, and a prefix left alone is the last unit. */
  ghost predicate Classified(us: seq<Unit>, prefixes: set<Dots>)
  {
    forall k :: 0 <= k < |us| && |us[k]| > 0 ==>
      && (|us[k]| == 2 ==> us[k][0].dots in prefixes)
      && (|us[k]| == 1 && us[k][0].dots in prefixes ==> k == |us| - 1)
  }

  lemma {:induction false} UnitsClassified(cells: seq<Cell>, prefixes: set<Dots>)
    ensures Classified(Units(cells, prefixes), prefixes)
    decreases |cells|
  {
    if cells != [] {
      var n := if cells[0].dots in prefixes && |cells| > 1 then 2 else 1;
      UnitsClassified(cells[n..], prefixes);
      var us: seq<Unit> := Units(cells, prefixes);
      var rest: seq<Unit> := Units(cells[n..], prefixes);
      assert us == [cells[..n]] + rest;
      forall k | 0 <= k < |us| && |us[k]| > 0
        ensures |us[k]| == 2 ==> us[k][0].dots in prefixes
        ensures |us[k]| == 1 && us[k][0].dots in prefixes ==> k == |us| - 1
      {
        if k == 0 {
          assert us[0] == cells[..n] && us[0][0] == cells[0];
          if n == 1 && cells[0].dots in prefixes {
            assert cells[1..] == [];
            assert rest == [];
          }
        } else {
          assert us[k] == rest[k - 1];
          assert |us| == |rest| + 1;
        }
      }
    }
  }

  // ---------------------------------------------------------------------------
  // Step 2: greedy packing of units into lines

  /** The greedy packing, one group of units per line. `cur` holds the units of the line being
      filled: when the next unit does not fit and the line is not empty, the line is closed;
      the unit is then added to the (possibly new) line in every case. */
  function PackGroups(us: seq<Unit>, cur: seq<Unit>, maxChars: int): seq<seq<Unit>>
    decreases |us|
  {
    if us == [] then
      (if |Concat(cur)| > 0 then [cur] else [])
    else if |Concat(cur)| + |us[0]| > maxChars && |Concat(cur)| > 0 then
      [cur] + PackGroups(us[1..], [us[0]], maxChars)
    else
      PackGroups(us[1..], cur + [us[0]], maxChars)
  }

  /** One step of the unit-forming loop, starting at index `i` of the stream. */
  lemma UnitsStep(cells: seq<Cell>, i: nat, prefixes: set<Dots>, units: seq<Unit>)
    requires i < |cells|
    requires units + Units(cells[i..], prefixes) == Units(cells, prefixes)
    ensures var n := if cells[i].dots in prefixes && i + 1 < |cells| then 2 else 1;
      (units + [cells[i..i + n]]) + Units(cells[i + n..], prefixes) == Units(cells, prefixes)
  {
    var n := if cells[i].dots in prefixes && i + 1 < |cells| then 2 else 1;
    UnitsAt(cells, i, prefixes);
    var x, rest := cells[i..i + n], Units(cells[i + n..], prefixes);
    AppendAssoc(units, [x], rest);
  }

  /** The units from index `i` on: the unit starting at `i`, then the units after it. */
  lemma UnitsAt(cells: seq<Cell>, i: nat, prefixes: set<Dots>)
    requires i < |cells|
    ensures var n := if cells[i].dots in prefixes && i + 1 < |cells| then 2 else 1;
      Units(cells[i..], prefixes) == [cells[i..i + n]] + Units(cells[i + n..], prefixes)
  {
    var n := if cells[i].dots in prefixes && i + 1 < |cells| then 2 else 1;
    assert cells[i..][0] == cells[i];
    assert cells[i..][..n] == cells[i..i + n];
    assert cells[i..][n..] == cells[i + n..];
  }

  /** One step of the packing loop, for the unit at index `j`. */
  lemma PackStep(units: seq<Unit>, j: nat, cur: seq<Unit>, maxChars: int)
    requires j < |units|
    ensures var flush := |Concat(cur)| + |units[j]| > maxChars && |Concat(cur)| > 0;
      LinesOf(PackGroups(units[j..], cur, maxChars))
      == if flush then [Concat(cur)] + LinesOf(PackGroups(units[j + 1..], [units[j]], maxChars))
         else LinesOf(PackGroups(units[j + 1..], cur + [units[j]], maxChars))
  {
    assert units[j..][0] == units[j] && units[j..][1..] == units[j + 1..];
    var flush := |Concat(cur)| + |units[j]| > maxChars && |Concat(cur)| > 0;
    if flush {
      LinesOfAppend([cur], PackGroups(units[j + 1..], [units[j]], maxChars));
    }
  }

  /** The groups of units that `SplitCellsWithRules` turns into lines. */
  function Grouping(cells: seq<Cell>, prefixes: set<Dots>, maxChars: int): seq<seq<Unit>>
  {
    PackGroups(Units(cells, prefixes), [], maxChars)
  }

  /** The cells of each group, i.e. the lines. */
  function LinesOf(groups: seq<seq<Unit>>): seq<Line>
  {
    seq(|groups|, k requires 0 <= k < |groups| => Concat(groups[k]))
  }

  lemma LinesOfAppend(a: seq<seq<Unit>>, b: seq<seq<Unit>>)
    ensures LinesOf(a + b) == LinesOf(a) + LinesOf(b)
  {
  }

  /** What makes a grouping of units into lines a greedy layout: the groups concatenate back
      to the units, no group is empty, a group is within `maxChars` cells unless it is a single
      unit, and no group could have taken the first unit of the next one. */
  ghost predicate IsGreedyGrouping(us: seq<Unit>, groups: seq<seq<Unit>>, maxChars: int)
  {
    && Concat(groups) == us
    && (forall k :: 0 <= k < |groups| ==> groups[k] != [])
    && (forall k :: 0 <= k < |groups| ==> |Concat(groups[k])| <= maxChars || |groups[k]| == 1)
    && (forall k :: 0 <= k < |groups| - 1 ==> |Concat(groups[k])| + |groups[k + 1][0]| > maxChars)
  }

  /** What the packing guarantees about the groups `g` it builds from a current line `cur`
      and the remaining units `us`. */
  ghost predicate PackedFrom(g: seq<seq<Unit>>, cur: seq<Unit>, us: seq<Unit>, maxChars: int)
  {
    && Concat(g) == cur + us
    && (forall k :: 0 <= k < |g| ==> Concat(g[k]) != [])
    && (forall k :: 0 <= k < |g| ==> |Concat(g[k])| <= maxChars || |g[k]| == 1)
    && (forall k :: 0 <= k < |g| - 1 ==> |Concat(g[k])| + |g[k + 1][0]| > maxChars)
    && (cur != [] ==> g != [] && |cur| <= |g[0]| && g[0][..|cur|] == cur)
    && (cur == [] && us != [] ==> g != [] && g[0] != [] && g[0][0] == us[0])
  }

  /** A line closed before a unit that does not fit is followed by a line starting with it. */
  lemma PackBreakGaps(cur: seq<Unit>, u: Unit, g': seq<seq<Unit>>, maxChars: int)
    requires |Concat(cur)| + |u| > maxChars
    requires forall k :: 0 <= k < |g'| ==> g'[k] != []
    requires g' != [] && g'[0][0] == u
    requires forall k :: 0 <= k < |g'| - 1 ==> |Concat(g'[k])| + |g'[k + 1][0]| > maxChars
    ensures var g := [cur] + g';
      forall k :: 0 <= k < |g| - 1 ==> |Concat(g[k])| + |g[k + 1][0]| > maxChars
  {
    var g := [cur] + g';
    forall k | 0 <= k < |g| - 1
      ensures |Concat(g[k])| + |g[k + 1][0]| > maxChars
    {
      if k > 0 {
        assert g[k] == g'[k - 1] && g[k + 1] == g'[k];
      }
    }
  }

  /** The closed line and the lines after it are non-empty and within the width unless they
      hold a single unit. */
  lemma PackBreakSizes(cur: seq<Unit>, g': seq<seq<Unit>>, maxChars: int)
    requires Concat(cur) != [] && (|Concat(cur)| <= maxChars || |cur| == 1)
    requires forall k :: 0 <= k < |g'| ==> Concat(g'[k]) != []
    requires forall k :: 0 <= k < |g'| ==> |Concat(g'[k])| <= maxChars || |g'[k]| == 1
    ensures var g := [cur] + g';
      && (forall k :: 0 <= k < |g| ==> Concat(g[k]) != [])
      && (forall k :: 0 <= k < |g| ==> |Concat(g[k])| <= maxChars || |g[k]| == 1)
  {
    var g := [cur] + g';
    forall k | 0 <= k < |g|
      ensures Concat(g[k]) != [] && (|Concat(g[k])| <= maxChars || |g[k]| == 1)
    {
      if k > 0 {
        assert g[k] == g'[k - 1];
      }
    }
  }

  lemma PackBreakConcat(cur: seq<Unit>, g': seq<seq<Unit>>)
    ensures var g := [cur] + g';
      Concat(g) == cur + Concat(g') && g[0][..|cur|] == cur
  {
    var g := [cur] + g';
    assert g[1..] == g';
    assert cur[..|cur|] == cur;
  }

  /** Closing the current line before a unit that does not fit keeps the packing's
      guarantees. */
  lemma PackBreak(cur: seq<Unit>, u: Unit, rest: seq<Unit>, g': seq<seq<Unit>>, maxChars: int)
    requires Concat(cur) != [] && (|Concat(cur)| <= maxChars || |cur| == 1)
    requires |Concat(cur)| + |u| > maxChars
    requires PackedFrom(g', [u], rest, maxChars)
    ensures PackedFrom([cur] + g', cur, [u] + rest, maxChars)
  {
    PackBreakConcat(cur, g');
    assert g'[0][..1] == [u];
    PackBreakGaps(cur, u, g', maxChars);
    PackBreakSizes(cur, g', maxChars);
  }

  /** The invariant of the packing loop, for any line `cur` the loop may be filling. */
  lemma {:induction false} PackGreedy(us: seq<Unit>, cur: seq<Unit>, maxChars: int)
    requires forall k :: 0 <= k < |us| ==> us[k] != []
    requires cur == [] || (Concat(cur) != [] && (|Concat(cur)| <= maxChars || |cur| == 1))
    ensures PackedFrom(PackGroups(us, cur, maxChars), cur, us, maxChars)
    decreases |us|
  {
    var g := PackGroups(us, cur, maxChars);
    if us == [] {
      if cur != [] {
        assert g == [cur];
        assert Concat(g) == cur + Concat(g[1..]);
        assert cur[..|cur|] == cur;
      }
    } else {
      var u := us[0];
      assert us == [u] + us[1..];
      if |Concat(cur)| + |u| > maxChars && |Concat(cur)| > 0 {
        assert Concat([u]) == u + Concat([u][1..]);
        PackGreedy(us[1..], [u], maxChars);
        PackBreak(cur, u, us[1..], PackGroups(us[1..], [u], maxChars), maxChars);
      } else {
        var cur' := cur + [u];
        ConcatSnoc(cur, u);
        if cur == [] {
          assert cur' == [u];
        }
        PackGreedy(us[1..], cur', maxChars);
        assert cur' + us[1..] == cur + us;
        assert g[0][..|cur'|] == cur';
        assert g[0][..|cur|] == cur'[..|cur|] == cur;
      }
    }
  }

  /** The packing the source computes is a greedy layout. */
  lemma PackIsGreedy(us: seq<Unit>, maxChars: int)
    requires forall k :: 0 <= k < |us| ==> us[k] != []
    ensures IsGreedyGrouping(us, PackGroups(us, [], maxChars), maxChars)
  {
    PackGreedy(us, [], maxChars);
    var g := PackGroups(us, [], maxChars);
    assert [] + us == us;
    assert Concat<Cell>([]) == [];
    forall k | 0 <= k < |g|
      ensures g[k] != []
    {
      assert Concat(g[k]) != [];
    }
  }

  lemma {:induction false} ConcatPrefixLength<T>(xs: seq<seq<T>>, a: nat, b: nat)
    requires a <= b <= |xs|
    ensures |Concat(xs[..a])| <= |Concat(xs[..b])|
  {
    assert xs[..b] == xs[..a] + xs[a..b];
    ConcatAppend(xs[..a], xs[a..b]);
  }

  /** A grouping whose groups concatenate to `us` starts with a prefix of `us`. */
  lemma FirstGroup(us: seq<Unit>, groups: seq<seq<Unit>>)
    requires Concat(groups) == us && groups != []
    ensures |groups[0]| <= |us| && groups[0] == us[..|groups[0]|]
    ensures Concat(groups[1..]) == us[|groups[0]|..]
  {
  }

  /** There is only one greedy layout of a unit sequence. */
  lemma {:induction false} GreedyUnique(us: seq<Unit>, g1: seq<seq<Unit>>, g2: seq<seq<Unit>>, maxChars: int)
    requires IsGreedyGrouping(us, g1, maxChars) && IsGreedyGrouping(us, g2, maxChars)
    ensures g1 == g2
    decreases |us|
  {
    if g1 == [] || g2 == [] {
      if g1 != [] {
        FirstGroup(us, g1);
      }
      if g2 != [] {
        FirstGroup(us, g2);
      }
    } else {
      FirstGroup(us, g1);
      FirstGroup(us, g2);
      var a, b := |g1[0]|, |g2[0]|;
      FirstGroupMaximal(us, g1, g2, maxChars);
      FirstGroupMaximal(us, g2, g1, maxChars);
      assert g1[0] == g2[0];
      var rest := us[a..];
      assert IsGreedyGrouping(rest, g1[1..], maxChars) by {
        forall k | 0 <= k < |g1[1..]| - 1
          ensures |Concat(g1[1..][k])| + |g1[1..][k + 1][0]| > maxChars
        {
          assert g1[1..][k] == g1[k + 1] && g1[1..][k + 1] == g1[k + 2];
        }
      }
      assert IsGreedyGrouping(rest, g2[1..], maxChars) by {
        forall k | 0 <= k < |g2[1..]| - 1
          ensures |Concat(g2[1..][k])| + |g2[1..][k + 1][0]| > maxChars
        {
          assert g2[1..][k] == g2[k + 1] && g2[1..][k + 1] == g2[k + 2];
        }
      }
      GreedyUnique(rest, g1[1..], g2[1..], maxChars);
      assert g1 == [g1[0]] + g1[1..] && g2 == [g2[0]] + g2[1..];
    }
  }

  /** The first line of a greedy layout is as long as it can be: no greedy layout of the same
      units has a longer first line. */
  lemma FirstGroupMaximal(us: seq<Unit>, g1: seq<seq<Unit>>, g2: seq<seq<Unit>>, maxChars: int)
    requires IsGreedyGrouping(us, g1, maxChars) && IsGreedyGrouping(us, g2, maxChars)
    requires g1 != [] && g2 != []
    ensures |g2[0]| <= |g1[0]|
  {
    FirstGroup(us, g1);
    FirstGroup(us, g2);
    var a, b := |g1[0]|, |g2[0]|;
    if a < b {
      assert |Concat(g2[0])| <= maxChars;
      assert |Concat(g1[1..])| == |us| - a > 0;
      assert g1[1..] != [];
      FirstGroup(us[a..], g1[1..]);
      assert g1[1][0] == us[a];
      assert |Concat(g1[0])| + |us[a]| > maxChars;
      assert us[..a + 1] == us[..a] + [us[a]];
      ConcatSnoc(us[..a], us[a]);
      assert |Concat(us[..a + 1])| > maxChars;
      ConcatPrefixLength(us, a + 1, b);
      assert false;
    }
  }

  lemma {:induction false} ConcatLines(groups: seq<seq<Unit>>)
    ensures Concat(LinesOf(groups)) == Concat(Concat(groups))
  {
    if groups != [] {
      ConcatLines(groups[1..]);
      assert LinesOf(groups) == [Concat(groups[0])] + LinesOf(groups[1..]);
      ConcatAppend(groups[0], Concat(groups[1..]));
    }
  }

  /** The facts about the layout of a cell stream that hold line by line: the lines
      concatenate back to the stream, no line is empty, there are no lines exactly when there
      are no cells, and a line longer than `maxChars` is a single unit. */
  lemma LayoutFacts(cells: seq<Cell>, prefixes: set<Dots>, maxChars: int)
    ensures var g := Grouping(cells, prefixes, maxChars);
      var lines := LinesOf(g);
      && Concat(lines) == cells
      && (forall k :: 0 <= k < |lines| ==> lines[k] != [])
      && (lines == [] <==> cells == [])
      && (forall k :: 0 <= k < |lines| && |lines[k]| > maxChars ==> |g[k]| == 1)
  {
    var us := Units(cells, prefixes);
    var g := Grouping(cells, prefixes, maxChars);
    UnitsConcat(cells, prefixes);
    PackGreedy(us, [], maxChars);
    assert [] + us == us;
    ConcatLines(g);
    assert Concat<Cell>([]) == [];
  }

  /** The layout is exactly the greedy layout of the units: it is greedy, and any greedy
      grouping of the units is this one. */
  lemma LayoutIsUniqueGreedy(cells: seq<Cell>, prefixes: set<Dots>, maxChars: int, groups: seq<seq<Unit>>)
    ensures IsGreedyGrouping(Units(cells, prefixes), groups, maxChars)
        <==> groups == Grouping(cells, prefixes, maxChars)
  {
    var us := Units(cells, prefixes);
    PackIsGreedy(us, maxChars);
    if IsGreedyGrouping(us, groups, maxChars) {
      GreedyUnique(us, groups, Grouping(cells, prefixes, maxChars), maxChars);
    }
  }

  /** Forming units again from a cell stream cut at a unit boundary continues with the same units. */
  lemma {:induction false} UnitsSuffix(cells: seq<Cell>, prefixes: set<Dots>, n: nat)
    requires n <= |Units(cells, prefixes)|
    ensures |Concat(Units(cells, prefixes)[..n])| <= |cells|
    ensures Units(cells, prefixes)[n..]
         == Units(cells[|Concat(Units(cells, prefixes)[..n])|..], prefixes)
    decreases n
  {
    var us := Units(cells, prefixes);
    if n == 0 {
      assert us[..0] == [];
      assert cells[0..] == cells;
    } else {
      var k := if cells[0].dots in prefixes && |cells| > 1 then 2 else 1;
      var u, rest := cells[..k], Units(cells[k..], prefixes);
      assert us == [u] + rest;
      UnitsSuffix(cells[k..], prefixes, n - 1);
      var l := |Concat(rest[..n - 1])|;
      assert us[..n] == [u] + rest[..n - 1];
      assert Concat(us[..n]) == u + Concat(rest[..n - 1]);
      assert |Concat(us[..n])| == k + l;
      assert cells[k..][l..] == cells[k + l..];
      assert us[n..] == rest[n - 1..];
    }
  }

  /** The first `n` units of a stream, formed again on their own, are the same units. */
  lemma {:induction false} UnitsPrefix(cells: seq<Cell>, prefixes: set<Dots>, n: nat)
    requires n <= |Units(cells, prefixes)|
    ensures Units(Concat(Units(cells, prefixes)[..n]), prefixes) == Units(cells, prefixes)[..n]
    decreases n
  {
    var us := Units(cells, prefixes);
    if n == 0 {
      assert us[..0] == [];
    } else {
      var k := if cells[0].dots in prefixes && |cells| > 1 then 2 else 1;
      var u, rest := cells[..k], Units(cells[k..], prefixes);
      assert us == [u] + rest;
      assert us[..n] == [u] + rest[..n - 1];
      var z := Concat(rest[..n - 1]);
      assert Concat(us[..n]) == u + z;
      UnitsPrefix(cells[k..], prefixes, n - 1);
      if k == 1 && cells[0].dots in prefixes {
        // a prefix cell without a successor: the last cell of the stream
        assert cells[1..] == [];
        assert rest == [] && n == 1 && z == [];
        assert u + z == [cells[0]];
      } else {
        assert (u + z)[..k] == u && (u + z)[k..] == z;
        assert Units(u + z, prefixes) == [u] + Units(z, prefixes);
      }
    }
  }

  /** Re-splitting holds for every group once it holds for the first and for the rest. */
  lemma ReparseCons(prefixes: set<Dots>, groups: seq<seq<Unit>>)
    requires groups != []
    requires Units(Concat(groups[0]), prefixes) == groups[0]
    requires forall k :: 0 <= k < |groups[1..]| ==> Units(Concat(groups[1..][k]), prefixes) == groups[1..][k]
    ensures forall k :: 0 <= k < |groups| ==> Units(Concat(groups[k]), prefixes) == groups[k]
  {
    forall k | 0 <= k < |groups|
      ensures Units(Concat(groups[k]), prefixes) == groups[k]
    {
      if k > 0 {
        assert groups[k] == groups[1..][k - 1];
      }
    }
  }

  /** Any grouping of the units of a stream can be re-split group by group with the same result. */
  lemma {:induction false} GroupsReparse(cells: seq<Cell>, prefixes: set<Dots>, groups: seq<seq<Unit>>)
    requires Concat(groups) == Units(cells, prefixes)
    ensures forall k :: 0 <= k < |groups| ==> Units(Concat(groups[k]), prefixes) == groups[k]
    decreases |groups|
  {
    if groups != [] {
      var us := Units(cells, prefixes);
      FirstGroup(us, groups);
      var a := |groups[0]|;
      UnitsPrefix(cells, prefixes, a);
      UnitsSuffix(cells, prefixes, a);
      var cells' := cells[|Concat(us[..a])|..];
      GroupsReparse(cells', prefixes, groups[1..]);
      ReparseCons(prefixes, groups);
    }
  }

  /** No unit is split across lines: forming units again from each line on its own gives
      exactly that line's units, the units the whole stream was packed from. */
  lemma UnitBoundariesPreserved(cells: seq<Cell>, prefixes: set<Dots>, maxChars: int)
    ensures var g := Grouping(cells, prefixes, maxChars);
      var lines := LinesOf(g);
      && Concat(g) == Units(cells, prefixes)
      && forall k :: 0 <= k < |lines| ==> Units(lines[k], prefixes) == g[k]
  {
    var us := Units(cells, prefixes);
    PackIsGreedy(us, maxChars);
    GroupsReparse(cells, prefixes, Grouping(cells, prefixes, maxChars));
  }

  /** The first loop of `split_cells_with_rules`: scans the cell stream and forms its units. */
  method FormUnits(allCells: seq<Cell>, prefixes: set<Dots>) returns (units: seq<Unit>)
    ensures units == Units(allCells, prefixes)
  {
    units := [];
    var i := 0;
    assert allCells[0..] == allCells;
    while i < |allCells|
      invariant 0 <= i <= |allCells|
      invariant units + Units(allCells[i..], prefixes) == Units(allCells, prefixes)
    {
      var cell := allCells[i];
      var isPrefix := cell.dots in prefixes;
      UnitsStep(allCells, i, prefixes, units);
      if isPrefix && i + 1 < |allCells| {
        units := units + [allCells[i..i + 2]];  // the prefix cell and its successor
        i := i + 2;
      } else {
        units := units + [allCells[i..i + 1]];  // the cell alone
        i := i + 1;
      }
    }
  }

  /** The second loop of `split_cells_with_rules`: fills a line with whole units and closes it
      when the next unit would overflow it, then flushes the last line if it is not empty. */
  method PackLines(units: seq<Unit>, maxChars: int) returns (lines: seq<Line>)
    ensures lines == LinesOf(PackGroups(units, [], maxChars))
  {
    lines := [];
    var currentLine: Line := [];
    ghost var curGroup: seq<Unit> := [];
    assert units[0..] == units;
    for j := 0 to |units|
      invariant currentLine == Concat(curGroup)
      invariant LinesOf(PackGroups(units, [], maxChars))
             == lines + LinesOf(PackGroups(units[j..], curGroup, maxChars))
    {
      var unit := units[j];
      PackStep(units, j, curGroup, maxChars);
      if |currentLine| + |unit| > maxChars {
        if |currentLine| > 0 {
          assert lines + LinesOf(PackGroups(units[j..], curGroup, maxChars))
              == (lines + [currentLine]) + LinesOf(PackGroups(units[j + 1..], [unit], maxChars));
          lines := lines + [currentLine];
          currentLine := [];
          curGroup := [];
        }
      }
      assert curGroup == [] ==> curGroup + [unit] == [unit];
      ConcatSnoc(curGroup, unit);
      currentLine := currentLine + unit;
      curGroup := curGroup + [unit];
    }
    assert units[|units|..] == [];
    if |currentLine| > 0 {
      lines := lines + [currentLine];
    }
  }

  /** `split_cells_with_rules`: the lines of a cell stream. They give back the stream when
      concatenated, none is empty, and they are the unique greedy layout of its units. */
  method SplitCellsWithRules(allCells: seq<Cell>, prefixes: set<Dots>, maxChars: int)
    returns (lines: seq<Line>)
    ensures lines == LinesOf(Grouping(allCells, prefixes, maxChars))
    ensures Concat(lines) == allCells
    ensures forall k :: 0 <= k < |lines| ==> lines[k] != []
  {
    var units := FormUnits(allCells, prefixes);
    lines := PackLines(units, maxChars);
    LayoutFacts(allCells, prefixes, maxChars);
  }

  // ---------------------------------------------------------------------------
  // Step 3: plates

  /** `[xs[i:i + n] for i in range(0, len(xs), n)]`: consecutive runs of `n` elements, of which
      only the last may be shorter. Cuts the line list into plates, and in the legacy export
      cuts the cell stream into lines. */
  function Chunks<T>(xs: seq<T>, n: int): (r: seq<seq<T>>)
    requires n > 0
    ensures forall k :: 0 <= k < |r| ==> 0 < |r[k]| <= n
    ensures forall k :: 0 <= k < |r| - 1 ==> |r[k]| == n
    decreases |xs|
  {
    if xs == [] then []
    else if |xs| <= n then [xs]
    else [xs[..n]] + Chunks(xs[n..], n)
  }

  /** The chunks concatenate back to the input. */
  lemma {:induction false} ChunksConcat<T>(xs: seq<T>, n: int)
    requires n > 0
    ensures Concat(Chunks(xs, n)) == xs
    decreases |xs|
  {
    if xs != [] {
      if |xs| <= n {
        assert Concat([xs]) == xs + Concat<T>([]);
      } else {
        ChunksConcat(xs[n..], n);
        assert ([xs[..n]] + Chunks(xs[n..], n))[1..] == Chunks(xs[n..], n);
        assert xs == xs[..n] + xs[n..];
      }
    }
  }

  lemma ChunkSliceStep<T>(xs: seq<T>, n: int, k: int)
    requires 0 < n < |xs| && 0 < k
    requires (k - 1) * n < |xs| - n
    ensures k * n == (k - 1) * n + n && k * n < |xs|
    ensures xs[n..][(k - 1) * n .. Min((k - 1) * n + n, |xs| - n)] == xs[k * n .. Min(k * n + n, |xs|)]
  {
    MulPred(k, n);
    var a := (k - 1) * n;
    var hi := Min(a + n, |xs| - n);
    assert hi + n == Min(k * n + n, |xs|);
    assert xs[n..][a .. hi] == xs[n + a .. hi + n];
  }

  lemma MulPred(k: int, n: int)
    ensures k * n == (k - 1) * n + n
  {
  }

  /** Run `k` of `r` is the slice `xs[k*n : k*n + n]`, and the runs reach the end of `xs`. */
  ghost predicate SlicedBy<T>(xs: seq<T>, r: seq<seq<T>>, n: int)
    requires n > 0
  {
    && |xs| <= |r| * n
    && (forall k :: 0 <= k < |r| ==> k * n < |xs| && r[k] == xs[k * n .. Min(k * n + n, |xs|)])
  }

  /** Putting the first run in front of the runs of the rest keeps them slices. */
  lemma SlicedByCons<T>(xs: seq<T>, n: int, r': seq<seq<T>>)
    requires 0 < n < |xs|
    requires SlicedBy(xs[n..], r', n)
    ensures SlicedBy(xs, [xs[..n]] + r', n)
  {
    var r := [xs[..n]] + r';
    assert |r| * n == |r'| * n + n by {
      assert |r| == |r'| + 1;
    }
    forall k | 0 <= k < |r|
      ensures k * n < |xs| && r[k] == xs[k * n .. Min(k * n + n, |xs|)]
    {
      if k > 0 {
        assert r[k] == r'[k - 1];
        ChunkSliceStep(xs, n, k);
      }
    }
  }

  /** Chunk `k` is the slice `xs[k*n : k*n + n]`, as the comprehension reads, and there are as
      many chunks as needed to cover the input and no more. */
  lemma {:induction false} ChunksAreSlices<T>(xs: seq<T>, n: int)
    requires n > 0
    ensures var r := Chunks(xs, n);
      && |xs| <= |r| * n
      && (forall k :: 0 <= k < |r| ==> k * n < |xs| && r[k] == xs[k * n .. Min(k * n + n, |xs|)])
    decreases |xs|
  {
    if xs != [] && |xs| > n {
      ChunksAreSlices(xs[n..], n);
      SlicedByCons(xs, n, Chunks(xs[n..], n));
    }
  }

  /** The plates of a cell stream: its lines cut into runs of `linesPerPlate`. */
  function Paginate(cells: seq<Cell>, prefixes: set<Dots>, maxChars: int, linesPerPlate: int)
    : seq<seq<Line>>
    requires linesPerPlate > 0
  {
    Chunks(LinesOf(Grouping(cells, prefixes, maxChars)), linesPerPlate)
  }

  /** Python's `[lines[i:i + k] for i in range(0, len(lines), k)]` for any integer `k`: a zero
      step raises, a negative step yields no plates, a positive one cuts consecutive slices. */
  function PlateSlices<T>(lines: seq<T>, k: int): (r: Option<seq<seq<T>>>)
    ensures r.None? <==> k == 0
    ensures k < 0 ==> r == Some([])
    ensures k > 0 ==> r.Some? && Concat(r.value) == lines
    ensures k > 0 ==> forall j :: 0 <= j < |r.value| ==>
      j * k < |lines| && r.value[j] == lines[j * k .. Min(j * k + k, |lines|)]
  {
    if k == 0 then None
    else if k < 0 then Some([])
    else
      ChunksConcat(lines, k);
      ChunksAreSlices(lines, k);
      Some(Chunks(lines, k))
  }

  /** The plates give back the cell stream, and there are no plates exactly when there are no cells. */
  lemma PaginateFacts(cells: seq<Cell>, prefixes: set<Dots>, maxChars: int, linesPerPlate: int)
    requires linesPerPlate > 0
    ensures var plates := Paginate(cells, prefixes, maxChars, linesPerPlate);
      && Concat(Concat(plates)) == cells
      && (plates == [] <==> cells == [])
  {
    var lines := LinesOf(Grouping(cells, prefixes, maxChars));
    LayoutFacts(cells, prefixes, maxChars);
    ChunksConcat(lines, linesPerPlate);
  }

  // ---------------------------------------------------------------------------
  // Streams without prefix cells

  function Singletons<T>(xs: seq<T>): seq<seq<T>>
  {
    seq(|xs|, k requires 0 <= k < |xs| => [xs[k]])
  }

  lemma SingletonsCons<T>(xs: seq<T>)
    requires xs != []
    ensures Singletons(xs) == [xs[..1]] + Singletons(xs[1..])
  {
    assert xs[..1] == [xs[0]];
  }

  lemma {:induction false} UnitsNoPrefix(cells: seq<Cell>, prefixes: set<Dots>)
    requires forall k :: 0 <= k < |cells| ==> cells[k].dots !in prefixes
    ensures Units(cells, prefixes) == Singletons(cells)
    decreases |cells|
  {
    if cells != [] {
      UnitsNoPrefix(cells[1..], prefixes);
      SingletonsCons(cells);
    }
  }

  lemma {:induction false} ConcatSingletons<T>(xs: seq<T>)
    ensures Concat(Singletons(xs)) == xs
    decreases |xs|
  {
    if xs != [] {
      ConcatSingletons(xs[1..]);
      SingletonsCons(xs);
      assert Singletons(xs)[1..] == Singletons(xs[1..]);
      assert xs == xs[..1] + xs[1..];
    }
  }

  lemma {:induction false} LinesOfSingletonChunks<T>(xs: seq<Cell>, n: int)
    requires n > 0
    ensures LinesOf(Chunks(Singletons(xs), n)) == Chunks(xs, n)
    decreases |xs|
  {
    var s := Singletons(xs);
    if xs != [] {
      if |xs| <= n {
        ConcatSingletons(xs);
      } else {
        assert s[..n] == Singletons(xs[..n]);
        assert s[n..] == Singletons(xs[n..]);
        ConcatSingletons(xs[..n]);
        LinesOfSingletonChunks<T>(xs[n..], n);
        LinesOfAppend([s[..n]], Chunks(s[n..], n));
      }
    }
  }

  lemma {:induction false} ConcatLengthOfSingles(us: seq<Unit>)
    requires forall k :: 0 <= k < |us| ==> |us[k]| == 1
    ensures |Concat(us)| == |us|
    decreases |us|
  {
    if us != [] {
      ConcatLengthOfSingles(us[1..]);
    }
  }

  /** A greedy layout with one more line in front is greedy, when that line is within the width
      (or one unit) and the next unit does not fit on it. */
  lemma GreedyCons(head: seq<Unit>, rest: seq<Unit>, g': seq<seq<Unit>>, maxChars: int)
    requires head != [] && (|Concat(head)| <= maxChars || |head| == 1)
    requires IsGreedyGrouping(rest, g', maxChars)
    requires rest != [] ==> |Concat(head)| + |rest[0]| > maxChars
    ensures IsGreedyGrouping(head + rest, [head] + g', maxChars)
  {
    var g := [head] + g';
    PackBreakConcat(head, g');
    if g' != [] {
      FirstGroup(rest, g');
      assert g'[0][0] == rest[0];
    } else {
      assert rest == [];
    }
    forall k | 0 <= k < |g|
      ensures g[k] != [] && (|Concat(g[k])| <= maxChars || |g[k]| == 1)
    {
      if k > 0 {
        assert g[k] == g'[k - 1];
      }
    }
    forall k | 0 <= k < |g| - 1
      ensures |Concat(g[k])| + |g[k + 1][0]| > maxChars
    {
      if k > 0 {
        assert g[k] == g'[k - 1] && g[k + 1] == g'[k];
      }
    }
  }

  /** Fixed runs of `maxChars` one-cell units are a greedy layout. */
  lemma {:induction false} ChunksOfSinglesAreGreedy(us: seq<Unit>, maxChars: int)
    requires maxChars > 0
    requires forall k :: 0 <= k < |us| ==> |us[k]| == 1
    ensures IsGreedyGrouping(us, Chunks(us, maxChars), maxChars)
    decreases |us|
  {
    if us == [] {
    } else if |us| <= maxChars {
      assert Chunks(us, maxChars) == [us];
      ShortLineGreedy(us, maxChars);
    } else {
      var head, rest := us[..maxChars], us[maxChars..];
      assert Chunks(us, maxChars) == [head] + Chunks(rest, maxChars);
      assert us == head + rest;
      ChunksOfSinglesAreGreedy(rest, maxChars);
      ConcatLengthOfSingles(head);
      assert |rest[0]| == 1;
      GreedyCons(head, rest, Chunks(rest, maxChars), maxChars);
    }
  }

  /** A non-empty run of at most `maxChars` one-cell units on one line is a greedy layout. */
  lemma ShortLineGreedy(us: seq<Unit>, maxChars: int)
    requires us != [] && |us| <= maxChars
    requires forall k :: 0 <= k < |us| ==> |us[k]| == 1
    ensures IsGreedyGrouping(us, [us], maxChars)
  {
    ConcatLengthOfSingles(us);
    assert Concat([us]) == us + Concat<Unit>([]);
  }

  /** Without prefix cells every unit is one cell, and the rule-aware layout is the same as
      cutting the stream into fixed runs of `maxChars` cells, as the legacy export does. */
  lemma NoPrefixIsFixedChunks(cells: seq<Cell>, prefixes: set<Dots>, maxChars: int)
    requires maxChars > 0
    requires forall k :: 0 <= k < |cells| ==> cells[k].dots !in prefixes
    ensures LinesOf(Grouping(cells, prefixes, maxChars)) == Chunks(cells, maxChars)
  {
    var us := Units(cells, prefixes);
    UnitsNoPrefix(cells, prefixes);
    ChunksOfSinglesAreGreedy(us, maxChars);
    LayoutIsUniqueGreedy(cells, prefixes, maxChars, Chunks(us, maxChars));
    LinesOfSingletonChunks<Cell>(cells, maxChars);
  }

  // ---------------------------------------------------------------------------
  // Worked examples

  /** 25 cells without prefixes, 10 cells per line and 2 lines per plate: lines of 10, 10 and 5
      cells, on two plates of 2 and 1 lines. */
  lemma ExampleFixedRuns(cells: seq<Cell>, prefixes: set<Dots>)
    requires |cells| == 25
    requires forall k :: 0 <= k < |cells| ==> cells[k].dots !in prefixes
    ensures var plates := Paginate(cells, prefixes, 10, 2);
      && |plates| == 2 && |plates[0]| == 2 && |plates[1]| == 1
      && |plates[0][0]| == 10 && |plates[0][1]| == 10 && |plates[1][0]| == 5
  {
    NoPrefixIsFixedChunks(cells, prefixes, 10);
    var lines := Chunks(cells, 10);
    ChunksAreSlices(cells, 10);
    var last := |lines| - 1;
    assert last * 10 < |cells| && |cells| <= |lines| * 10;
    assert |lines| == 3;
    assert |lines[0]| == 10 && |lines[1]| == 10 && |lines[2]| == 5;
    ChunksAreSlices(lines, 2);
    var plates := Chunks(lines, 2);
    assert |plates| == 2;
    assert plates[0] == lines[0..2] && plates[1] == lines[2..3];
  }

  /** The units of the example stream: three plain cells, then a prefix with its base. */
  lemma ExampleUnits(a: Cell, b: Cell, c: Cell, p: Cell, d: Cell, prefixes: set<Dots>)
    requires a.dots !in prefixes && b.dots !in prefixes && c.dots !in prefixes
    requires p.dots in prefixes
    ensures Units([a, b, c, p, d], prefixes) == [[a], [b], [c], [p, d]]
  {
    var cells := [a, b, c, p, d];
    assert Units(cells[3..], prefixes) == [[p, d]] by {
      assert cells[3..][..2] == [p, d] && cells[3..][2..] == [];
    }
    assert Units(cells[2..], prefixes) == [[c], [p, d]] by {
      assert cells[2..][..1] == [c] && cells[2..][1..] == cells[3..];
    }
    assert Units(cells[1..], prefixes) == [[b], [c], [p, d]] by {
      assert cells[1..][..1] == [b] && cells[1..][1..] == cells[2..];
    }
    assert cells[..1] == [a];
  }

  /** Packing the example's units four cells wide: the prefix unit does not fit after three
      cells, so it opens the second line. */
  lemma ExamplePacking(a: Cell, b: Cell, c: Cell, p: Cell, d: Cell)
    ensures PackGroups([[a], [b], [c], [p, d]], [], 4) == [[[a], [b], [c]], [[p, d]]]
  {
    var us: seq<Unit> := [[a], [b], [c], [p, d]];
    assert Concat<Cell>([[a], [b], [c]]) == [a, b, c] by {
      assert [[a], [b], [c]][1..] == [[b], [c]] && [[b], [c]][1..] == [[c]];
      assert Concat<Cell>([[c]]) == [c] by { assert [[c]][1..] == []; }
    }
    assert Concat<Cell>([[a], [b]]) == [a, b] by {
      assert [[a], [b]][1..] == [[b]];
      assert Concat<Cell>([[b]]) == [b] by { assert [[b]][1..] == []; }
    }
    assert PackGroups([[p, d]], [[a], [b], [c]], 4) == [[[a], [b], [c]]] + PackGroups([], [[p, d]], 4);
    assert Concat<Cell>([[p, d]]) == [p, d] by { assert [[p, d]][1..] == []; }
    assert us[2..][0] == [c] && us[2..][1..] == us[3..] && [[a], [b]] + [[c]] == [[a], [b], [c]];
    assert PackGroups(us[2..], [[a], [b]], 4) == PackGroups(us[3..], [[a], [b], [c]], 4);
    assert Concat<Cell>([[a]]) == [a] by { assert [[a]][1..] == []; }
    assert us[1..][0] == [b] && us[1..][1..] == us[2..] && [[a]] + [[b]] == [[a], [b]];
    assert PackGroups(us[1..], [[a]], 4) == PackGroups(us[2..], [[a], [b]], 4);
    assert Concat<Cell>([]) == [] && us[0] == [a] && [] + [[a]] == [[a]];
  }

  /** A prefix unit that would straddle the line end moves whole to the next line: with 4 cells
      per line, three plain cells then a prefix and its base give lines [a, b, c] and [p, d]. */
  lemma ExamplePrefixAtLineEnd(a: Cell, b: Cell, c: Cell, p: Cell, d: Cell, prefixes: set<Dots>)
    requires a.dots !in prefixes && b.dots !in prefixes && c.dots !in prefixes
    requires p.dots in prefixes
    ensures LinesOf(Grouping([a, b, c, p, d], prefixes, 4)) == [[a, b, c], [p, d]]
  {
    ExampleUnits(a, b, c, p, d, prefixes);
    ExamplePacking(a, b, c, p, d);
    var g := [[[a], [b], [c]], [[p, d]]];
    assert Concat<Cell>([[a], [b], [c]]) == [a, b, c] by {
      assert [[a], [b], [c]][1..] == [[b], [c]] && [[b], [c]][1..] == [[c]];
      assert Concat<Cell>([[c]]) == [c] by { assert [[c]][1..] == []; }
    }
    assert Concat<Cell>([[p, d]]) == [p, d] by { assert [[p, d]][1..] == []; }
    assert LinesOf(g)[0] == [a, b, c] && LinesOf(g)[1] == [p, d];
  }
}
