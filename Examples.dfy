// Worked moves: what one move does to particular lines, derived from the
// line-by-line description of a move.

module Examples {
  import opened Grid
  import opened Engine
  import opened LineMerge

  /** The value at c as a line reads it: one value, or nothing for an empty cell. */
  function Present(b: Board, c: Cell): seq<int> {
    if c in b then [b[c]] else []
  }

  lemma ValuesStep(b: Board, cs: seq<Cell>)
    requires cs != []
    ensures ValuesOf(b, Occupied(b, cs)) == Present(b, cs[0]) + ValuesOf(b, Occupied(b, cs[1..]))
  {
    var rest := Occupied(b, cs[1..]);
    if cs[0] in b {
      assert ValuesOf(b, [cs[0]] + rest) == [b[cs[0]]] + ValuesOf(b, rest);
    }
  }

  lemma Values4(b: Board, cs: seq<Cell>)
    requires |cs| == 4
    ensures ValuesOf(b, Occupied(b, cs)) == Present(b, cs[0]) + (Present(b, cs[1]) + (Present(b, cs[2]) + Present(b, cs[3])))
  {
    var t1 := cs[1..];
    var t2 := t1[1..];
    var t3 := t2[1..];
    assert t1[0] == cs[1] && t2[0] == cs[2] && t3[0] == cs[3];
    var v3 := ValuesOf(b, Occupied(b, t3));
    assert v3 == Present(b, cs[3]) by {
      ValuesStep(b, t3);
      assert t3[1..] == [];
    }
    var v2 := ValuesOf(b, Occupied(b, t2));
    assert v2 == Present(b, cs[2]) + v3 by {
      ValuesStep(b, t2);
    }
    var v1 := ValuesOf(b, Occupied(b, t1));
    assert v1 == Present(b, cs[1]) + v2 by {
      ValuesStep(b, t1);
    }
    ValuesStep(b, cs);
  }

  /** A line reads its four cells from the leading edge, skipping empty ones. */
  lemma LineValuesUnrolled(b: Board, dir: Direction, l: int)
    ensures LineValues(b, dir, l) == Present(b, LineCell(dir, l, 0)) + (Present(b, LineCell(dir, l, 1))
      + (Present(b, LineCell(dir, l, 2)) + Present(b, LineCell(dir, l, 3))))
  {
    Values4(b, LineCells(dir, l));
  }

  /** A line of four 2s becomes [4, 4] and adds 8 to the score (for a row
      moved left: [2, 2, 2, 2] becomes [4, 4, _, _]). */
  lemma FourTwos(b: Board, dir: Direction, l: int)
    requires ValidBoard(b) && 0 <= l < 4
    requires forall d | 0 <= d < 4 :: LineCell(dir, l, d) in b && b[LineCell(dir, l, d)] == 2
    ensures LaidOut(Move(b, dir).board, dir, l, [4, 4])
    ensures CollapseGain(LineValues(b, dir, l)) == 8
  {
    LineValuesUnrolled(b, dir, l);
    assert LineValues(b, dir, l) == [2, 2, 2, 2];
    CollapseExamples();
    MoveIsCollapse(b, dir);
  }

  /** A line reading 2, gap, 4 becomes [2, 4] and adds nothing to the score
      (for a row moved left: [2, _, 4, _] becomes [2, 4, _, _]). */
  lemma TwoGapFour(b: Board, dir: Direction, l: int)
    requires ValidBoard(b) && 0 <= l < 4
    requires LineCell(dir, l, 0) in b && b[LineCell(dir, l, 0)] == 2
    requires LineCell(dir, l, 1) !in b
    requires LineCell(dir, l, 2) in b && b[LineCell(dir, l, 2)] == 4
    requires LineCell(dir, l, 3) !in b
    ensures LaidOut(Move(b, dir).board, dir, l, [2, 4])
    ensures CollapseGain(LineValues(b, dir, l)) == 0
  {
    LineValuesUnrolled(b, dir, l);
    assert LineValues(b, dir, l) == [2, 4];
    CollapseExamples();
    MoveIsCollapse(b, dir);
  }

  /** Two pairs in a line merge pair by pair: 2, 2, 4, 4 becomes [4, 8] and scores 12. */
  lemma TwoPairs(b: Board, dir: Direction, l: int)
    requires ValidBoard(b) && 0 <= l < 4
    requires LineCell(dir, l, 0) in b && b[LineCell(dir, l, 0)] == 2
    requires LineCell(dir, l, 1) in b && b[LineCell(dir, l, 1)] == 2
    requires LineCell(dir, l, 2) in b && b[LineCell(dir, l, 2)] == 4
    requires LineCell(dir, l, 3) in b && b[LineCell(dir, l, 3)] == 4
    ensures LaidOut(Move(b, dir).board, dir, l, [4, 8])
    ensures CollapseGain(LineValues(b, dir, l)) == 12
  {
    LineValuesUnrolled(b, dir, l);
    assert LineValues(b, dir, l) == [2, 2, 4, 4];
    CollapseExamples();
    MoveIsCollapse(b, dir);
  }

  /** A merged tile does not merge again in the same move: 4, 2, 2 becomes [4, 4], not [8]. */
  lemma NoChainMerge(b: Board, dir: Direction, l: int)
    requires ValidBoard(b) && 0 <= l < 4
    requires LineCell(dir, l, 0) in b && b[LineCell(dir, l, 0)] == 4
    requires LineCell(dir, l, 1) in b && b[LineCell(dir, l, 1)] == 2
    requires LineCell(dir, l, 2) in b && b[LineCell(dir, l, 2)] == 2
    requires LineCell(dir, l, 3) !in b
    ensures LaidOut(Move(b, dir).board, dir, l, [4, 4])
    ensures CollapseGain(LineValues(b, dir, l)) == 4
  {
    LineValuesUnrolled(b, dir, l);
    assert LineValues(b, dir, l) == [4, 2, 2];
    CollapseExamples();
    MoveIsCollapse(b, dir);
  }

  // The frames of move_tiles as written. On a row 2, 2, 2, 2 moved left, the
  // tenth pass of the frame loop merges the second tile into the first; the
  // `pop` of the merged tile makes the enumeration skip the third tile, and
  // the fourth, which follows it 200 pixels behind, advances to x = 400,
  // which set_pos(ceil) rounds to column 2, the third tile's column. The
  // list that pass hands to update_tiles is the one below. On 2, 2, 4, 4 the
  // tenth pass does the same to the two 4s.

  /** update_tiles keeps one tile per cell, so the row 2, 2, 2, 2 ends with one
      4 and a single 2 (a total of 6 where it held 8), not the [4, 4] of FourTwos. */
  lemma FourTwosFrameCollision()
    ensures var ts := [Tile(4, 0, 0), Tile(2, 0, 2), Tile(2, 0, 2)];
      && |Rebuilt(ts)| < |ts|
      && Rebuilt(ts) == map[Cell(0, 0) := 4, Cell(0, 2) := 2]
  {
    var ts := [Tile(4, 0, 0), Tile(2, 0, 2), Tile(2, 0, 2)];
    RebuiltCollision(ts, 1, 2);
  }

  /** Likewise the row 2, 2, 4, 4 keeps one 4 of the two (a total of 8 where
      it held 12), not the [4, 8] of TwoPairs. */
  lemma TwoPairsFrameCollision()
    ensures var ts := [Tile(4, 0, 0), Tile(4, 0, 2), Tile(4, 0, 2)];
      && |Rebuilt(ts)| < |ts|
      && Rebuilt(ts) == map[Cell(0, 0) := 4, Cell(0, 2) := 4]
  {
    var ts := [Tile(4, 0, 0), Tile(4, 0, 2), Tile(4, 0, 2)];
    RebuiltCollision(ts, 1, 2);
  }
}
