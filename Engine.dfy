/** The discrete result of move_tiles: the order in which the tiles of a move
    are processed, how each tile slides and merges, and what a whole move
    conserves. The frame-by-frame pixel animation is abstracted away: a tile
    that the source moves over several frames moves here in one step. This
    is the rule the frames aim at; the frames as written can round two tiles
    to one cell and lose one of them (Examples.FourTwosFrameCollision). */
module Engine {
  import opened Grid

  /** What move_tiles carries while it processes one move: the board, the
      cells of the tiles produced by a merge during this move (the `blocks`
      set) and the score gained so far. */
  datatype MoveState = MoveState(board: Board, blocks: set<Cell>, gain: int)

  // ---------------------------------------------------------------------
  // Processing order: sorted(tiles.values(), key=key, reverse=reverse)

  /** What the source's sort guarantees: no tile twice, keys ascending, or
      descending when the direction sorts in reverse. */
  predicate SortedForMove(dir: Direction, order: seq<Cell>) {
    && NoDup(order)
    && forall i, j | 0 <= i < j < |order| ::
         if Reverse(dir) then SortKey(dir, order[i]) >= SortKey(dir, order[j])
         else SortKey(dir, order[i]) <= SortKey(dir, order[j])
  }

  /** Rank of a cell in the processing order: nearer the leading edge first,
      lines in increasing order among cells at the same distance. */
  function Rank(dir: Direction, c: Cell): int {
    4 * Distance(dir, c) + LineOf(dir, c)
  }

  predicate RankIncreasing(dir: Direction, cs: seq<Cell>) {
    forall i, j | 0 <= i < j < |cs| :: Rank(dir, cs[i]) < Rank(dir, cs[j])
  }

  /** The sixteen cells in processing order. */
  function CellsByRank(dir: Direction): (cs: seq<Cell>)
    ensures |cs| == 16
    ensures forall k | 0 <= k < 16 :: cs[k] == LineCell(dir, k % 4, k / 4) && InRange(cs[k])
  {
    seq(16, k requires 0 <= k < 16 => LineCell(dir, k % 4, k / 4))
  }

  lemma CellsByRankIncreasing(dir: Direction)
    ensures RankIncreasing(dir, CellsByRank(dir))
    ensures forall c | InRange(c) :: c in CellsByRank(dir)
  {
    var cs := CellsByRank(dir);
    forall i, j | 0 <= i < j < 16 ensures Rank(dir, cs[i]) < Rank(dir, cs[j]) {
      assert Rank(dir, cs[i]) == 4 * (i / 4) + i % 4 == i;
      assert Rank(dir, cs[j]) == 4 * (j / 4) + j % 4 == j;
    }
    forall c | InRange(c) ensures c in cs {
      BoundaryIsLeadingEdge(dir, c);
      LineCellOf(dir, c);
      var k := Rank(dir, c);
      assert k % 4 == LineOf(dir, c) && k / 4 == Distance(dir, c);
      assert cs[k] == c;
    }
  }

  /** The cells of cs that hold a tile, in the order of cs. */
  function Occupied(b: Board, cs: seq<Cell>): (r: seq<Cell>)
    ensures forall i | 0 <= i < |r| :: r[i] in b && r[i] in cs
    ensures forall c | c in cs && c in b :: c in r
    decreases |cs|
  {
    if cs == [] then []
    else (if cs[0] in b then [cs[0]] else []) + Occupied(b, cs[1..])
  }

  lemma {:induction false} OccupiedKeepsRank(dir: Direction, b: Board, cs: seq<Cell>)
    requires RankIncreasing(dir, cs)
    ensures RankIncreasing(dir, Occupied(b, cs))
    decreases |cs|
  {
    if cs != [] {
      var rest := cs[1..];
      assert RankIncreasing(dir, rest) by {
        forall i, j | 0 <= i < j < |rest| ensures Rank(dir, rest[i]) < Rank(dir, rest[j]) {
          assert rest[i] == cs[i + 1] && rest[j] == cs[j + 1];
        }
      }
      OccupiedKeepsRank(dir, b, rest);
      var tail := Occupied(b, rest);
      forall k | 0 <= k < |tail| ensures Rank(dir, cs[0]) < Rank(dir, tail[k]) {
        var m :| 0 <= m < |rest| && rest[m] == tail[k];
        assert rest[m] == cs[m + 1];
      }
    }
  }

  /** The tiles of the board in the order move_tiles processes them: every
      tile exactly once, leading edge first. Among tiles with equal keys the
      source follows the dictionary's order; here lines come in increasing
      order, and every lemma below holds for any order the sort may produce. */
  function SortedTiles(b: Board, dir: Direction): (order: seq<Cell>)
    requires ValidBoard(b)
    ensures forall i | 0 <= i < |order| :: order[i] in b
    ensures forall c | c in b :: c in order
    ensures SortedForMove(dir, order)
  {
    CellsByRankIncreasing(dir);
    OccupiedKeepsRank(dir, b, CellsByRank(dir));
    var order := Occupied(b, CellsByRank(dir));
    assert forall i, j | 0 <= i < j < |order| :: order[i] != order[j] && Distance(dir, order[i]) <= Distance(dir, order[j]) by {
      forall i, j | 0 <= i < j < |order| ensures order[i] != order[j] && Distance(dir, order[i]) <= Distance(dir, order[j]) {
        assert Rank(dir, order[i]) < Rank(dir, order[j]);
        BoundaryIsLeadingEdge(dir, order[i]);
        BoundaryIsLeadingEdge(dir, order[j]);
        KeyOrderIsDistanceOrder(dir, order[i], order[j]);
      }
    }
    order
  }

  /** The processing order puts every tile nearer the leading edge first. */
  lemma SortedByDistance(dir: Direction, order: seq<Cell>, i: int, j: int)
    requires SortedForMove(dir, order) && 0 <= i < j < |order|
    ensures Distance(dir, order[i]) <= Distance(dir, order[j]) && order[i] != order[j]
  {
    KeyOrderIsDistanceOrder(dir, order[i], order[j]);
  }

  // ---------------------------------------------------------------------
  // One tile's turn

  /** The cell a tile at c reaches by sliding toward the leading edge while
      the next cell is empty: it stops on the boundary or in front of a tile,
      and every cell it passes over is empty. A tile on the boundary stays put. */
  function Slide(b: Board, dir: Direction, c: Cell): (t: Cell)
    requires InRange(c)
    ensures InRange(t) && LineOf(dir, t) == LineOf(dir, c) && Distance(dir, t) <= Distance(dir, c)
    ensures Boundary(dir, c) ==> t == c
    ensures Boundary(dir, t) || NextCell(dir, t) in b
    ensures forall k | Distance(dir, t) <= k < Distance(dir, c) :: LineCell(dir, LineOf(dir, c), k) !in b
    decreases Distance(dir, c)
  {
    BoundaryIsLeadingEdge(dir, c);
    if Boundary(dir, c) || NextCell(dir, c) in b then c
    else
      LineCellOf(dir, NextCell(dir, c));
      Slide(b, dir, NextCell(dir, c))
  }

  /** The cell a sliding tile stops on was empty, unless the tile did not move. */
  lemma SlideTargetFree(b: Board, dir: Direction, c: Cell)
    requires InRange(c)
    ensures var t := Slide(b, dir, c); t == c || t !in b
  {
    var t := Slide(b, dir, c);
    if t != c {
      LineCellOf(dir, t);
      if Distance(dir, t) == Distance(dir, c) {
        SameLineSameDistance(dir, t, c);
      }
    }
  }

  /** Whether the tile at c, after sliding, merges into the tile in front of
      it: same value, and neither the moving tile nor the one in front is in
      blocks (line 160). */
  predicate Merges(s: MoveState, dir: Direction, c: Cell)
    requires ValidBoard(s.board) && c in s.board
    ensures Merges(s, dir, c) ==>
      var n := NextCell(dir, Slide(s.board, dir, c));
      && InRange(n) && n in s.board && n != c
      && LineOf(dir, n) == LineOf(dir, c) && Distance(dir, n) < Distance(dir, c)
  {
    var t := Slide(s.board, dir, c);
    && !Boundary(dir, t)
    && s.board[NextCell(dir, t)] == s.board[c]
    && c !in s.blocks
    && NextCell(dir, t) !in s.blocks
  }

  /** One tile's turn in the processing order (lines 153-174): it slides over
      empty cells; if it then faces an equal tile and neither is blocked, the
      tile in front doubles, the score grows by the new value, the front tile
      joins blocks and the moving tile is removed. */
  function StepTile(s: MoveState, dir: Direction, c: Cell): (r: MoveState)
    requires ValidBoard(s.board)
    ensures ValidBoard(r.board)
  {
    if c !in s.board then s
    else
      var v := s.board[c];
      var t := Slide(s.board, dir, c);
      if Merges(s, dir, c) then
        var n := NextCell(dir, t);
        TileValueDoubles(v);
        MoveState((s.board - {c})[n := 2 * v], s.blocks + {n}, s.gain + 2 * v)
      else
        MoveState((s.board - {c})[t := v], s.blocks, s.gain)
  }

  /** The tiles of order processed in turn, starting from state s. */
  function Process(s: MoveState, dir: Direction, order: seq<Cell>): (r: MoveState)
    requires ValidBoard(s.board)
    ensures ValidBoard(r.board)
    decreases |order|
  {
    if order == [] then s
    else StepTile(Process(s, dir, order[..|order| - 1]), dir, order[|order| - 1])
  }

  lemma ProcessSnoc(s: MoveState, dir: Direction, order: seq<Cell>, i: int)
    requires ValidBoard(s.board) && 0 <= i < |order|
    ensures Process(s, dir, order[..i + 1]) == StepTile(Process(s, dir, order[..i]), dir, order[i])
  {
    assert order[..i + 1][..i] == order[..i];
  }

  /** The start of a move: nothing blocked, nothing gained (lines 116-117). */
  function Start(b: Board): MoveState {
    MoveState(b, {}, 0)
  }

  /** The outcome of one move in direction dir: the new board, the tiles
      produced by merges and the score gained. */
  function Move(b: Board, dir: Direction): (r: MoveState)
    requires ValidBoard(b)
    ensures ValidBoard(r.board)
  {
    Process(Start(b), dir, SortedTiles(b, dir))
  }

  // ---------------------------------------------------------------------
  // What one move keeps

  /** The map of the blocked tiles only. */
  function Restrict(b: Board, cells: set<Cell>): (r: Board)
    ensures forall c :: c in r <==> c in b && c in cells
    ensures forall c | c in r :: r[c] == b[c]
  {
    map c | c in b && c in cells :: b[c]
  }

  /** What holds between the board b0 a move starts from and any state the
      move passes through: every blocked cell holds a tile, the tile count
      has dropped by one per merge, the values add up to the same total,
      and the score gained is the sum of the values the merges produced. */
  predicate Conserves(b0: Board, s: MoveState) {
    && s.blocks <= s.board.Keys
    && |s.board| == |b0| - |s.blocks|
    && Total(s.board) == Total(b0)
    && s.gain == Total(Restrict(s.board, s.blocks))
  }

  lemma StartConserves(b: Board)
    ensures Conserves(b, Start(b))
  {
    assert Restrict(b, {}) == map[];
    TotalUpdate(map[], map[], Cell(0, 0));
    assert Total(map[]) == 0 by {
      ZeroSum(AllCells());
    }
  }

  lemma {:induction false} ZeroSum(cs: seq<Cell>)
    ensures SumOver(map[], cs) == 0
    decreases |cs|
  {
    if cs != [] {
      ZeroSum(cs[1..]);
    }
  }

  /** One tile's turn leaves every blocked tile where it is with its value,
      never unblocks a cell, and changes nothing outside the part of the
      tile's line between the tile and the leading edge. */
  lemma StepTileFrame(s: MoveState, dir: Direction, c: Cell)
    requires ValidBoard(s.board) && s.blocks <= s.board.Keys && c !in s.blocks
    ensures var r := StepTile(s, dir, c);
      && s.blocks <= r.blocks
      && (forall e | e in s.blocks :: e in r.board && r.board[e] == s.board[e])
      && (forall e | e != c && (LineOf(dir, e) != LineOf(dir, c) || Distance(dir, e) > Distance(dir, c)) ::
            Val(r.board, e) == Val(s.board, e) && (e in r.blocks <==> e in s.blocks))
  {
    if c in s.board {
      SlideTargetFree(s.board, dir, c);
    }
  }

  /** A merge keeps Conserves: one tile fewer, one more blocked tile, the
      same total, and a gain that grew by the value of the new blocked tile. */
  lemma MergeConserves(b0: Board, s: MoveState, dir: Direction, c: Cell)
    requires ValidBoard(s.board) && Conserves(b0, s) && c !in s.blocks
    requires c in s.board && Merges(s, dir, c)
    ensures Conserves(b0, StepTile(s, dir, c))
  {
    MergeTarget(s, dir, c);
    MergeAccounting(s, c, NextCell(dir, Slide(s.board, dir, c)));
  }

  /** The tile a merging tile merges into: the equal, unblocked tile in front
      of the cell it slides to. */
  lemma MergeTarget(s: MoveState, dir: Direction, c: Cell)
    requires ValidBoard(s.board) && c in s.board && Merges(s, dir, c)
    ensures var b := s.board;
            var n := NextCell(dir, Slide(b, dir, c));
      && InRange(c) && InRange(n) && n in b && n != c && b[n] == b[c] && n !in s.blocks && c !in s.blocks
      && StepTile(s, dir, c) == MoveState((b - {c})[n := 2 * b[c]], s.blocks + {n}, s.gain + 2 * b[c])
  {
  }

  /** The bookkeeping of a merge of the tile at c into the equal tile at n. */
  lemma MergeAccounting(s: MoveState, c: Cell, n: Cell)
    requires InRange(c) && InRange(n) && c in s.board && n in s.board && c != n
    requires s.board[c] == s.board[n] && c !in s.blocks && n !in s.blocks && s.blocks <= s.board.Keys
    ensures var board := (s.board - {c})[n := 2 * s.board[c]];
            var blocks := s.blocks + {n};
      && blocks <= board.Keys
      && |board| == |s.board| - 1
      && |blocks| == |s.blocks| + 1
      && Total(board) == Total(s.board)
      && Total(Restrict(board, blocks)) == Total(Restrict(s.board, s.blocks)) + 2 * s.board[c]
  {
    MergeCounts(s.board, c, n, 2 * s.board[c]);
    MergeTotal(s.board, c, n);
    MergeGain(s.board, s.blocks, c, n);
  }

  lemma MergeCounts(b: Board, c: Cell, n: Cell, w: int)
    requires c in b && n in b && c != n
    ensures var board := (b - {c})[n := w]; board.Keys == b.Keys - {c} && |board| == |b| - 1
  {
    var removed := b - {c};
    assert removed.Keys == b.Keys - {c};
  }

  lemma MergeTotal(b: Board, c: Cell, n: Cell)
    requires InRange(c) && InRange(n) && c in b && n in b && c != n && b[c] == b[n]
    ensures Total((b - {c})[n := 2 * b[c]]) == Total(b)
  {
    var removed := b - {c};
    TotalUpdate(b, removed, c);
    TotalUpdate(removed, removed[n := 2 * b[c]], n);
  }

  lemma MergeGain(b: Board, blocks: set<Cell>, c: Cell, n: Cell)
    requires InRange(n) && c in b && n in b && c != n && c !in blocks && n !in blocks
    ensures Total(Restrict((b - {c})[n := 2 * b[c]], blocks + {n})) == Total(Restrict(b, blocks)) + 2 * b[c]
  {
    var before := Restrict(b, blocks);
    var after := Restrict((b - {c})[n := 2 * b[c]], blocks + {n});
    assert forall e | e != n :: Val(before, e) == Val(after, e);
    TotalUpdate(before, after, n);
  }

  /** A tile that only slides keeps Conserves: the board keeps its tile
      count and total, and blocks and gain do not change. */
  lemma SlideConserves(b0: Board, s: MoveState, dir: Direction, c: Cell)
    requires ValidBoard(s.board) && Conserves(b0, s) && c !in s.blocks
    requires c in s.board && !Merges(s, dir, c)
    ensures Conserves(b0, StepTile(s, dir, c))
  {
    var b := s.board;
    var t := Slide(b, dir, c);
    SlideTargetFree(b, dir, c);
    assert StepTile(s, dir, c) == MoveState((b - {c})[t := b[c]], s.blocks, s.gain);
    SlideAccounting(b, s.blocks, c, t);
  }

  /** The bookkeeping of a slide of the tile at c to the free cell t. */
  lemma SlideAccounting(b: Board, blocks: set<Cell>, c: Cell, t: Cell)
    requires InRange(c) && InRange(t) && c in b && (t == c || t !in b)
    requires c !in blocks && blocks <= b.Keys
    ensures var board := (b - {c})[t := b[c]];
      && blocks <= board.Keys
      && |board| == |b|
      && Total(board) == Total(b)
      && Restrict(board, blocks) == Restrict(b, blocks)
  {
    var removed := b - {c};
    var board := removed[t := b[c]];
    assert |board| == |b| by {
      assert removed.Keys == b.Keys - {c};
      assert t !in removed;
    }
    assert Total(board) == Total(b) by {
      TotalUpdate(b, removed, c);
      TotalUpdate(removed, board, t);
    }
    SlideKeepsBlocked(b, blocks, c, t);
  }

  lemma SlideKeepsBlocked(b: Board, blocks: set<Cell>, c: Cell, t: Cell)
    requires c in b && (t == c || t !in b) && c !in blocks && blocks <= b.Keys
    ensures Restrict((b - {c})[t := b[c]], blocks) == Restrict(b, blocks)
  {
    var board := (b - {c})[t := b[c]];
    assert t !in blocks;
    forall e | e in blocks ensures e in board && board[e] == b[e] {
    }
  }

  lemma StepTileConserves(b0: Board, s: MoveState, dir: Direction, c: Cell)
    requires ValidBoard(s.board) && Conserves(b0, s) && c !in s.blocks
    ensures Conserves(b0, StepTile(s, dir, c))
  {
    if c in s.board {
      if Merges(s, dir, c) {
        MergeConserves(b0, s, dir, c);
      } else {
        SlideConserves(b0, s, dir, c);
      }
    }
  }

  /** Every tile whose turn comes at index k or later is still where it
      started, with its value, and not blocked. */
  predicate Pending(b0: Board, s: MoveState, order: seq<Cell>, k: int) {
    forall j | 0 <= j < |order| && k <= j :: order[j] in s.board && Val(s.board, order[j]) == Val(b0, order[j]) && order[j] !in s.blocks
  }

  /** The turn of the tile at index k leaves the tiles after it untouched:
      they are farther from the leading edge, or on another line. */
  lemma PendingStep(b0: Board, s: MoveState, dir: Direction, order: seq<Cell>, k: int)
    requires ValidBoard(s.board) && s.blocks <= s.board.Keys
    requires SortedForMove(dir, order) && 0 <= k < |order|
    requires forall i | 0 <= i < |order| :: InRange(order[i])
    requires Pending(b0, s, order, k)
    ensures Pending(b0, StepTile(s, dir, order[k]), order, k + 1)
  {
    var c := order[k];
    StepTileFrame(s, dir, c);
    forall j | k < j < |order|
      ensures order[j] != c
      ensures LineOf(dir, order[j]) != LineOf(dir, c) || Distance(dir, order[j]) > Distance(dir, c)
    {
      SortedByDistance(dir, order, k, j);
      if LineOf(dir, order[j]) == LineOf(dir, c) && Distance(dir, order[j]) == Distance(dir, c) {
        SameLineSameDistance(dir, order[j], c);
      }
    }
  }

  /** The state after the first k tiles of order: it conserves what the move
      started with, and every tile still to come sits unprocessed and
      unblocked where it started. */
  lemma {:induction false} ProcessConserves(b0: Board, dir: Direction, order: seq<Cell>, k: int)
    requires ValidBoard(b0) && SortedForMove(dir, order)
    requires forall i | 0 <= i < |order| :: order[i] in b0
    requires 0 <= k <= |order|
    ensures Conserves(b0, Process(Start(b0), dir, order[..k]))
    ensures Pending(b0, Process(Start(b0), dir, order[..k]), order, k)
    decreases k
  {
    if k == 0 {
      assert order[..0] == [];
      StartConserves(b0);
    } else {
      var j := k - 1;
      ProcessConserves(b0, dir, order, j);
      TurnConserves(b0, Process(Start(b0), dir, order[..j]), dir, order, j);
      ProcessSnoc(Start(b0), dir, order, j);
      assert j + 1 == k;
    }
  }

  /** The turn of order[k] keeps what the move conserves and leaves the later tiles pending. */
  lemma TurnConserves(b0: Board, s: MoveState, dir: Direction, order: seq<Cell>, k: int)
    requires ValidBoard(b0) && ValidBoard(s.board) && SortedForMove(dir, order)
    requires forall i | 0 <= i < |order| :: order[i] in b0
    requires 0 <= k < |order| && Conserves(b0, s) && Pending(b0, s, order, k)
    ensures Conserves(b0, StepTile(s, dir, order[k]))
    ensures Pending(b0, StepTile(s, dir, order[k]), order, k + 1)
  {
    StepTileConserves(b0, s, dir, order[k]);
    PendingStep(b0, s, dir, order, k);
  }

  /** Before the turn of order[k], no blocked cell is empty and the tile at order[k] is unblocked. */
  lemma ProcessReady(b0: Board, dir: Direction, order: seq<Cell>, k: int)
    requires ValidBoard(b0) && SortedForMove(dir, order)
    requires forall i | 0 <= i < |order| :: order[i] in b0
    requires 0 <= k < |order|
    ensures var s := Process(Start(b0), dir, order[..k]);
      s.blocks <= s.board.Keys && order[k] in s.board && order[k] !in s.blocks && s.board[order[k]] == b0[order[k]]
  {
    ProcessConserves(b0, dir, order, k);
  }

  /** The turn of order[k] finds its tile in place, and extends the processed prefix by one. */
  lemma ProcessStep(b0: Board, dir: Direction, order: seq<Cell>, k: int)
    requires ValidBoard(b0) && SortedForMove(dir, order)
    requires forall i | 0 <= i < |order| :: order[i] in b0
    requires 0 <= k < |order|
    ensures var s := Process(Start(b0), dir, order[..k]);
      && order[k] in s.board
      && Process(Start(b0), dir, order[..k + 1]) == StepTile(s, dir, order[k])
  {
    ProcessReady(b0, dir, order, k);
    ProcessSnoc(Start(b0), dir, order, k);
  }

  lemma {:induction false} SumOverNonNegative(b: Board, cs: seq<Cell>)
    requires forall c | c in b :: b[c] >= 0
    ensures SumOver(b, cs) >= 0
    decreases |cs|
  {
    if cs != [] {
      SumOverNonNegative(b, cs[1..]);
    }
  }

  /** One move keeps the sum of all tile values, drops the tile count by
      exactly the number of merges (each merge adds one tile to blocks),
      gains exactly the sum of the values the merges produced, so the score
      never decreases, and every blocked tile is still on the board. */
  lemma MoveConserves(b: Board, dir: Direction)
    requires ValidBoard(b)
    ensures var r := Move(b, dir);
      && Total(r.board) == Total(b)
      && |r.board| == |b| - |r.blocks|
      && r.gain == Total(Restrict(r.board, r.blocks))
      && r.gain >= 0
      && r.blocks <= r.board.Keys
  {
    OrderConserves(b, dir, SortedTiles(b, dir));
  }

  /** A move never lowers the score. */
  lemma MoveGainNonNegative(b: Board, dir: Direction)
    requires ValidBoard(b)
    ensures Move(b, dir).gain >= 0
  {
    MoveConserves(b, dir);
  }

  /** The same for every order the sort may produce, whatever it does with
      tiles of equal key. */
  lemma OrderConserves(b: Board, dir: Direction, order: seq<Cell>)
    requires ValidBoard(b) && SortedForMove(dir, order)
    requires forall i | 0 <= i < |order| :: order[i] in b
    ensures var r := Process(Start(b), dir, order);
      && Total(r.board) == Total(b)
      && |r.board| == |b| - |r.blocks|
      && r.gain == Total(Restrict(r.board, r.blocks))
      && r.gain >= 0
      && r.blocks <= r.board.Keys
  {
    OrderKeepsConserves(b, dir, order);
    BlockedTotalNonNegative(Process(Start(b), dir, order).board, Process(Start(b), dir, order).blocks);
  }

  lemma OrderKeepsConserves(b: Board, dir: Direction, order: seq<Cell>)
    requires ValidBoard(b) && SortedForMove(dir, order)
    requires forall i | 0 <= i < |order| :: order[i] in b
    ensures Conserves(b, Process(Start(b), dir, order))
  {
    ProcessConserves(b, dir, order, |order|);
    assert order[..|order|] == order;
  }

  lemma BlockedTotalNonNegative(b: Board, blocks: set<Cell>)
    requires ValidBoard(b)
    ensures Total(Restrict(b, blocks)) >= 0
  {
    var r := Restrict(b, blocks);
    forall c | c in r ensures r[c] >= 0 {
      TileValueDoubles(b[c]);
    }
    SumOverNonNegative(r, AllCells());
  }

  /** Every blocked tile of s1 is still blocked in s2, at the same cell and with the same value. */
  predicate Frozen(s1: MoveState, s2: MoveState) {
    && s1.blocks <= s2.blocks
    && forall e | e in s1.blocks :: e in s2.board && Val(s2.board, e) == Val(s1.board, e)
  }

  /** No tile takes part in two merges: once a tile is in blocks, every later
      turn of the move leaves it in blocks, at the same cell, with the same value. */
  lemma {:induction false} MergedTilesFrozen(b0: Board, dir: Direction, order: seq<Cell>, k: int, m: int)
    requires ValidBoard(b0) && SortedForMove(dir, order)
    requires forall i | 0 <= i < |order| :: order[i] in b0
    requires 0 <= k <= m <= |order|
    ensures Frozen(Process(Start(b0), dir, order[..k]), Process(Start(b0), dir, order[..m]))
    decreases m - k
  {
    if k < m {
      var j := m - 1;
      MergedTilesFrozen(b0, dir, order, k, j);
      TurnFrozen(b0, dir, order, j);
      assert j + 1 == m;
      FrozenTrans(Process(Start(b0), dir, order[..k]), Process(Start(b0), dir, order[..j]),
        Process(Start(b0), dir, order[..m]));
    } else {
      ProcessConserves(b0, dir, order, k);
    }
  }

  /** The turn of order[k] keeps every blocked tile where it is. */
  lemma TurnFrozen(b0: Board, dir: Direction, order: seq<Cell>, k: int)
    requires ValidBoard(b0) && SortedForMove(dir, order)
    requires forall i | 0 <= i < |order| :: order[i] in b0
    requires 0 <= k < |order|
    ensures Frozen(Process(Start(b0), dir, order[..k]), Process(Start(b0), dir, order[..k + 1]))
  {
    ProcessReady(b0, dir, order, k);
    ProcessSnoc(Start(b0), dir, order, k);
    StepFrozen(Process(Start(b0), dir, order[..k]), dir, order[k]);
  }

  lemma StepFrozen(s: MoveState, dir: Direction, c: Cell)
    requires ValidBoard(s.board) && s.blocks <= s.board.Keys && c !in s.blocks
    ensures Frozen(s, StepTile(s, dir, c))
  {
    StepTileFrame(s, dir, c);
  }

  lemma FrozenTrans(s1: MoveState, s2: MoveState, s3: MoveState)
    requires Frozen(s1, s2) && Frozen(s2, s3)
    ensures Frozen(s1, s3)
  {
  }

  // ---------------------------------------------------------------------
  // The loop of move_tiles

  /** One tile's turn as the body of move_tiles' loop runs it (lines 153-174):
      the tile advances one cell at a time while the next cell is empty and it
      has not reached the edge, then merges into the tile in front when the
      values match and neither tile is in blocks, or else settles where it stopped. */
  method Turn(s: MoveState, dir: Direction, c: Cell) returns (r: MoveState)
    requires ValidBoard(s.board) && c in s.board
    ensures r == StepTile(s, dir, c)
  {
    var v := s.board[c];
    var t := c;
    while !Boundary(dir, t) && NextCell(dir, t) !in s.board
      invariant InRange(t) && Slide(s.board, dir, t) == Slide(s.board, dir, c)
      decreases Distance(dir, t)
    {
      BoundaryIsLeadingEdge(dir, t);
      t := NextCell(dir, t);
    }
    assert t == Slide(s.board, dir, c);
    if !Boundary(dir, t) && s.board[NextCell(dir, t)] == v && c !in s.blocks && NextCell(dir, t) !in s.blocks {
      var n := NextCell(dir, t);
      var board := (s.board - {c})[n := 2 * v];
      r := MoveState(board, s.blocks + {n}, s.gain + board[n]);
    } else {
      r := MoveState((s.board - {c})[t := v], s.blocks, s.gain);
    }
  }

  /** The loop of move_tiles (lines 153-174): the tiles of order take their
      turns one after the other. */
  method TakeTurns(tiles: Board, dir: Direction, order: seq<Cell>) returns (state: MoveState)
    requires ValidBoard(tiles) && SortedForMove(dir, order)
    requires forall i | 0 <= i < |order| :: order[i] in tiles
    ensures state == Process(Start(tiles), dir, order)
  {
    state := Start(tiles);
    for i := 0 to |order|
      invariant state == Process(Start(tiles), dir, order[..i])
    {
      ProcessStep(tiles, dir, order, i);
      state := Turn(state, dir, order[i]);
    }
    assert order[..|order|] == order;
  }

  /** move_tiles' resolution of one move (lines 148-176): the tiles, sorted
      leading edge first, take their turns in order. Returns the new board
      and the score plus what the merges produced. */
  method ResolveMove(tiles: Board, dir: Direction, score: int) returns (moved: Board, newScore: int)
    requires ValidBoard(tiles)
    ensures moved == Move(tiles, dir).board
    ensures newScore == score + Move(tiles, dir).gain
  {
    var order := SortedTiles(tiles, dir);
    var state := TakeTurns(tiles, dir, order);
    moved, newScore := state.board, score + state.gain;
  }
}
