// The game's state as main keeps it (2048/main.py:204-244), with the
// dictionary move_tiles, update_tiles and end_move change in place.
//
// The event loop becomes one call per key press, handled in the mode
// (playing or game over) the game is in when the call is made.

module Game {
  import opened Grid
  import opened Engine
  import opened Spawn

  datatype Option<T> = None | Some(value: T)

  /** The key presses main reacts to; every other key is OtherKey. */
  datatype Key = Arrow(dir: Direction) | KeyR | OtherKey

  class Game {
    /** The tiles dictionary, keyed by cell. */
    var tiles: Board
    var score: int
    var gameOver: bool
    /** The local `status` of main: unbound until the first arrow key, then
        the status of the latest move. */
    var status: Option<Status>

    /** A board on the grid of powers of two, a score no move made negative,
        and game_over only ever set by a move that was lost. */
    predicate Valid()
      reads this
    {
      ValidBoard(tiles) && score >= 0 && (gameOver ==> status == Some(Lost))
    }

    /** main's start (lines 207-209): two tiles from generate_tiles, score 0,
        not over, no move made yet. */
    constructor (draws: seq<Cell>)
      requires StartStream(draws)
      ensures Valid()
      ensures |tiles| == 2 && (forall c | c in tiles :: tiles[c] == 2)
      ensures score == 0 && !gameOver && status == None
    {
      var t, _ := GenerateTiles(draws);
      tiles := t;
      score := 0;
      gameOver := false;
      status := None;
    }

    /** update_tiles: clear the dictionary and store every tile under the key
        of its own position. */
    method UpdateTiles(ts: seq<Tile>)
      modifies this
      ensures tiles == Rebuilt(ts)
      ensures score == old(score) && gameOver == old(gameOver) && status == old(status)
    {
      tiles := map[];
      for i := 0 to |ts|
        invariant tiles == Rebuilt(ts[..i])
        invariant score == old(score) && gameOver == old(gameOver) && status == old(status)
      {
        assert ts[..i + 1][..i] == ts[..i];
        tiles := tiles[PosOf(ts[i]) := ts[i].value];
      }
      assert ts[..|ts|] == ts;
    }

    /** end_move on the game's dictionary. */
    method EndMove(draws: seq<Cell>, value: int) returns (st: Status, used: nat)
      requires SpawnReady(tiles, draws)
      modifies this
      ensures EndMoveOutcome(old(tiles), draws, value) == EndResult(st, tiles, used)
      ensures score == old(score) && gameOver == old(gameOver) && status == old(status)
    {
      if |tiles| == 16 {
        return Lost, 0;
      }
      var pos, n := GetRandomPos(tiles, draws);
      tiles := tiles[pos := value];
      st, used := Continue, n;
    }

    /** move_tiles (lines 115-178): resolve the move, rebuild the dictionary
        from the surviving tiles, then end_move. Returns the status and the
        new score, as the source does; the caller stores them. */
    method MoveTiles(dir: Direction, draws: seq<Cell>, value: int) returns (st: Status, newScore: int, used: nat)
      requires ValidBoard(tiles) && SpawnReady(Move(tiles, dir).board, draws)
      modifies this
      ensures newScore == old(score) + Move(old(tiles), dir).gain
      ensures EndMoveOutcome(Move(old(tiles), dir).board, draws, value) == EndResult(st, tiles, used)
      ensures score == old(score) && gameOver == old(gameOver) && status == old(status)
    {
      var moved, s := ResolveMove(tiles, dir, score);
      UpdateTiles(TilesOn(moved, AllCells()));
      RebuiltBoard(moved);
      st, used := EndMove(draws, value);
      newScore := s;
    }

    /** The reset on R while the game is over (lines 220-223). `status` keeps
        the value of the move that was lost. */
    method Restart(draws: seq<Cell>) returns (used: nat)
      requires StartStream(draws)
      modifies this
      ensures |tiles| == 2 && (forall c | c in tiles :: tiles[c] == 2) && ValidBoard(tiles)
      ensures score == 0 && !gameOver && status == old(status)
    {
      tiles, used := GenerateTiles(draws);
      score := 0;
      gameOver := false;
    }

    /** One arrow key while playing (lines 233-240): store the status and
        score move_tiles returns. */
    method PlayArrow(dir: Direction, draws: seq<Cell>, value: int) returns (used: nat)
      requires Valid() && !gameOver && SpawnReady(Move(tiles, dir).board, draws) && (value == 2 || value == 4)
      modifies this
      ensures Valid() && !gameOver
      ensures var r := EndMoveOutcome(Move(old(tiles), dir).board, draws, value);
        && tiles == r.board && used == r.used && status == Some(r.status)
      ensures score == old(score) + Move(old(tiles), dir).gain && score >= old(score)
    {
      MoveGainNonNegative(tiles, dir);
      EndMoveKeepsValid(Move(tiles, dir).board, draws, value);
      var st, s, n := MoveTiles(dir, draws, value);
      status, score, used := Some(st), s, n;
    }

    /** A key press as main handles it. While the game is over only R does
        something. While playing, an arrow key makes a move, and then, for
        EVERY key, a stored "lost" status sets game_over and an unbound
        status raises (`crashed`). */
    method HandleKeyAsWritten(key: Key, draws: seq<Cell>, value: int) returns (crashed: bool, used: nat)
      requires Valid() && (value == 2 || value == 4)
      requires gameOver && key == KeyR ==> StartStream(draws)
      requires !gameOver && key.Arrow? ==> SpawnReady(Move(tiles, key.dir).board, draws)
      modifies this
      ensures Valid()
      ensures old(gameOver) && key == KeyR ==>
        && !crashed && |tiles| == 2 && score == 0 && !gameOver && status == old(status)
      ensures old(gameOver) && key != KeyR ==>
        !crashed && tiles == old(tiles) && score == old(score) && gameOver && status == old(status)
      ensures !old(gameOver) && key.Arrow? ==>
        var r := EndMoveOutcome(Move(old(tiles), key.dir).board, draws, value);
        && !crashed && tiles == r.board && used == r.used && status == Some(r.status)
        && score == old(score) + Move(old(tiles), key.dir).gain
        && (gameOver <==> r.status == Lost)
      ensures !old(gameOver) && !key.Arrow? ==>
        && (crashed <==> old(status) == None)
        && tiles == old(tiles) && score == old(score) && status == old(status)
        && (!crashed ==> (gameOver <==> status == Some(Lost)))
    {
      crashed, used := false, 0;
      if gameOver {
        if key == KeyR {
          used := Restart(draws);
        }
        return;
      }
      if key.Arrow? {
        used := PlayArrow(key.dir, draws, value);
      }
      if status == None {
        crashed := true;
        return;
      }
      if status == Some(Lost) {
        gameOver := true;
      }
    }

    /** A key press with the status check where it belongs: only the move
        an arrow key makes can end the game, and any other key while playing
        changes nothing. */
    method HandleKey(key: Key, draws: seq<Cell>, value: int) returns (used: nat)
      requires Valid() && (value == 2 || value == 4)
      requires gameOver && key == KeyR ==> StartStream(draws)
      requires !gameOver && key.Arrow? ==> SpawnReady(Move(tiles, key.dir).board, draws)
      modifies this
      ensures Valid()
      ensures old(gameOver) && key == KeyR ==>
        && |tiles| == 2 && score == 0 && !gameOver && status == old(status)
      ensures old(gameOver) && key != KeyR ==>
        tiles == old(tiles) && score == old(score) && gameOver && status == old(status)
      ensures !old(gameOver) && key.Arrow? ==>
        var r := EndMoveOutcome(Move(old(tiles), key.dir).board, draws, value);
        && tiles == r.board && used == r.used && status == Some(r.status)
        && score == old(score) + Move(old(tiles), key.dir).gain
        && (gameOver <==> r.status == Lost)
      ensures !old(gameOver) && !key.Arrow? ==>
        tiles == old(tiles) && score == old(score) && !gameOver && status == old(status)
    {
      used := 0;
      if gameOver {
        if key == KeyR {
          used := Restart(draws);
        }
        return;
      }
      if key.Arrow? {
        used := PlayArrow(key.dir, draws, value);
        if status == Some(Lost) {
          gameOver := true;
        }
      }
    }
  }

  /** After a lost game and R, any key other than an arrow ends the new game
      at once: its fresh board, with score 0, is declared over. */
  method StaleLossAfterRestart(g: Game, draws: seq<Cell>)
    requires g.Valid() && g.gameOver && StartStream(draws)
    modifies g
    ensures g.gameOver && g.score == 0 && |g.tiles| == 2
  {
    var crashed, used := g.HandleKeyAsWritten(KeyR, draws, 2);
    crashed, used := g.HandleKeyAsWritten(OtherKey, [], 2);
  }

  /** The same presses with the corrected handler leave the new game running. */
  method NoStaleLossAfterRestart(g: Game, draws: seq<Cell>)
    requires g.Valid() && g.gameOver && StartStream(draws)
    modifies g
    ensures !g.gameOver && g.score == 0 && |g.tiles| == 2
  {
    var used := g.HandleKey(KeyR, draws, 2);
    used := g.HandleKey(OtherKey, [], 2);
  }

  /** A first key press that is not an arrow key finds `status` unbound. */
  method CrashOnFirstKey(draws: seq<Cell>) returns (crashed: bool)
    requires StartStream(draws)
    ensures crashed
  {
    var g := new Game(draws);
    var used;
    crashed, used := g.HandleKeyAsWritten(OtherKey, [], 2);
  }

  /** With the corrected handler the same first key press changes nothing. */
  method NoCrashOnFirstKey(draws: seq<Cell>) returns (over: bool, score: int)
    requires StartStream(draws)
    ensures !over && score == 0
  {
    var g := new Game(draws);
    var used := g.HandleKey(OtherKey, [], 2);
    over, score := g.gameOver, g.score;
  }
}
