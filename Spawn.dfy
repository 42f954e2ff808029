// Placing new tiles: get_random_pos, end_move and generate_tiles
// (2048/main.py:108-112, 188-201).
//
// random.randrange is not modelled as randomness: the caller supplies the
// stream of (row, col) draws the rejection loop of get_random_pos would
// see, and random.choice([2, 4]) becomes a value parameter.

module Spawn {
  import opened Grid

  /** What end_move reports. */
  datatype Status = Lost | Continue

  /** Every draw is a cell randrange(0, ROWS), randrange(0, COLS) can produce. */
  predicate OnGrid(draws: seq<Cell>) {
    forall j | 0 <= j < |draws| :: InRange(draws[j])
  }

  /** Some draw falls on a cell that holds no tile, so the rejection loop stops. */
  predicate HitsFree(tiles: Board, draws: seq<Cell>) {
    exists j | 0 <= j < |draws| :: draws[j] !in tiles
  }

  /** The index of the first draw on a free cell, |draws| if there is none. */
  function FirstFree(tiles: Board, draws: seq<Cell>): (i: int)
    ensures 0 <= i <= |draws|
    ensures forall j | 0 <= j < i :: draws[j] in tiles
    ensures i < |draws| ==> draws[i] !in tiles
    ensures HitsFree(tiles, draws) <==> i < |draws|
    decreases |draws|
  {
    if draws == [] then 0
    else if draws[0] !in tiles then 0
    else 1 + FirstFree(tiles, draws[1..])
  }

  /** get_random_pos: draw cells until one is free. Returns that cell and how
      many draws were used. */
  method GetRandomPos(tiles: Board, draws: seq<Cell>) returns (pos: Cell, used: nat)
    requires OnGrid(draws) && HitsFree(tiles, draws)
    ensures used == FirstFree(tiles, draws) + 1 && used <= |draws|
    ensures pos == draws[used - 1] && InRange(pos) && pos !in tiles
  {
    var i := 0;
    while draws[i] in tiles
      invariant 0 <= i < |draws|
      invariant forall j | 0 <= j < i :: draws[j] in tiles
      decreases |draws| - i
    {
      i := i + 1;
    }
    pos, used := draws[i], i + 1;
  }

  /** A draw stream end_move can finish on: on a full board it draws nothing,
      otherwise some draw must fall on a free cell. */
  predicate SpawnReady(tiles: Board, draws: seq<Cell>) {
    OnGrid(draws) && (|tiles| != 16 ==> HitsFree(tiles, draws))
  }

  /** What end_move reports, the board it leaves and how many draws it used. */
  datatype EndResult = EndResult(status: Status, board: Board, used: nat)

  /** end_move: a loss on 16 tiles, otherwise a tile of the chosen value on
      the cell get_random_pos returns. */
  function EndMoveOutcome(tiles: Board, draws: seq<Cell>, value: int): (r: EndResult)
    requires SpawnReady(tiles, draws)
    ensures r.status == Lost <==> |tiles| == 16
    ensures r.used <= |draws| && tiles.Keys <= r.board.Keys
    ensures |r.board| == (if r.status == Lost then |tiles| else |tiles| + 1)
  {
    if |tiles| == 16 then EndResult(Lost, tiles, 0)
    else
      var i := FirstFree(tiles, draws);
      EndResult(Continue, tiles[draws[i] := value], i + 1)
  }

  /** end_move declares a loss exactly when every cell of the grid holds a
      tile, and then leaves the board as it is. */
  lemma EndMoveLossRule(tiles: Board, draws: seq<Cell>, value: int)
    requires ValidBoard(tiles) && SpawnReady(tiles, draws)
    ensures var r := EndMoveOutcome(tiles, draws, value);
      && (r.status == Lost <==> forall c | InRange(c) :: c in tiles)
      && (r.status == Lost ==> r.board == tiles && r.used == 0)
  {
    BoardSize(tiles);
  }

  /** Otherwise it adds exactly one tile, of the chosen value, on the cell of
      the first free draw, and keeps every other tile. */
  lemma EndMoveSpawnsOne(tiles: Board, draws: seq<Cell>, value: int)
    requires SpawnReady(tiles, draws)
    ensures var r := EndMoveOutcome(tiles, draws, value);
      r.status == Continue ==>
        && 0 < r.used <= |draws|
        && (forall j | 0 <= j < r.used - 1 :: draws[j] in tiles)
        && var pos := draws[r.used - 1];
        && InRange(pos) && pos !in tiles
        && r.board.Keys == tiles.Keys + {pos}
        && |r.board| == |tiles| + 1
        && r.board[pos] == value
        && forall c | c in tiles :: r.board[c] == tiles[c]
  {
  }

  /** The tile end_move adds, of value 2 or 4 on a free cell of the grid, keeps the board valid. */
  lemma EndMoveKeepsValid(tiles: Board, draws: seq<Cell>, value: int)
    requires ValidBoard(tiles) && SpawnReady(tiles, draws) && (value == 2 || value == 4)
    ensures ValidBoard(EndMoveOutcome(tiles, draws, value).board)
  {
    assert IsTileValue(value) by {
      assert IsTileValue(2);
    }
    if |tiles| != 16 {
      var pos := draws[FirstFree(tiles, draws)];
      var b := tiles[pos := value];
      forall c | c in b ensures InRange(c) && IsTileValue(b[c]) {
        if c != pos {
          assert c in tiles;
        }
      }
    }
  }

  /** On a full board there is no free cell, so end_move never reaches get_random_pos. */
  lemma FullBoardHasNoFreeCell(tiles: Board, draws: seq<Cell>)
    requires ValidBoard(tiles) && |tiles| == 16 && OnGrid(draws)
    ensures !HitsFree(tiles, draws)
  {
    BoardSize(tiles);
  }

  /** A draw stream generate_tiles can finish on: a first draw, and later a
      draw on another cell. */
  predicate StartStream(draws: seq<Cell>) {
    OnGrid(draws) && |draws| > 0 && HitsFree(map[draws[0] := 2], draws[1..])
  }

  /** generate_tiles: two get_random_pos calls on a growing dictionary, each
      placing a tile of value 2. */
  method GenerateTiles(draws: seq<Cell>) returns (tiles: Board, used: nat)
    requires StartStream(draws)
    ensures 2 <= used <= |draws|
    ensures used == 2 + FirstFree(map[draws[0] := 2], draws[1..])
    ensures draws[used - 1] != draws[0]
    ensures tiles == map[draws[0] := 2, draws[used - 1] := 2]
    ensures |tiles| == 2 && ValidBoard(tiles)
  {
    tiles, used := map[], 0;
    for i := 0 to 2
      invariant i == 0 ==> tiles == map[] && used == 0
      invariant i == 1 ==> tiles == map[draws[0] := 2] && used == 1
      invariant i == 2 ==> && used == 2 + FirstFree(map[draws[0] := 2], draws[1..])
                           && used <= |draws| && draws[used - 1] != draws[0]
                           && tiles == map[draws[0] := 2, draws[used - 1] := 2]
    {
      assert OnGrid(draws[used..]);
      var pos, n := GetRandomPos(tiles, draws[used..]);
      tiles := tiles[pos := 2];
      used := used + n;
    }
    assert tiles.Keys == {draws[0], draws[used - 1]};
  }
}
