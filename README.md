# 2048 move resolution in Dafny

This project models the game logic of a pygame 2048 clone (`2048/main.py`). The board is the
game's dictionary of tiles, keyed by cell. The model covers:

- how `move_tiles` resolves one arrow key: the sort toward the leading edge, the slide of
  each tile over empty cells, and merges under the `blocks` rule;
- the rebuild of the dictionary in `update_tiles`;
- the loss test and the new tile in `end_move` (via `get_random_pos`);
- the opening board of `generate_tiles`;
- the state `main` keeps per key press: the tiles, the score, `game_over` and the last
  move's `status`.

It is organised in six modules:

- `Grid`: cells, directions, and the per-direction accessors of `move_tiles` (the sort key,
  the reversal flag, the boundary test, the cell `next_tile` looks up). It also holds the
  dictionary key and the `update_tiles` rebuild.
- `Engine`: one tile's turn and the whole move.
  - As specification functions: `StepTile`, `Process` and `Move`.
  - As the source's loops: `Turn`, `TakeTurns` and `ResolveMove`.
  - What a move conserves.
- `LineMerge`: the reference rule, under which each line collapses on its own from the
  leading edge. It holds the proof that the tile-by-tile move leaves exactly the collapsed
  board and scores exactly the collapsed gain.
- `Spawn`: `get_random_pos`, `end_move` and `generate_tiles`. Random draws are parameters.
- `Game`: a `Game` class holding main's variables. It has one method per operation that
  changes them, and one per key press.
- `Examples`: worked single-line moves under the discrete rule, and the two tile
  collisions the frame loop as written runs into (see Findings).

The random draws of `get_random_pos` are a stream of cells supplied by the caller. The
value `random.choice([2, 4])` is a parameter restricted to 2 or 4.

## Model

| member | source | states |
|---|---|---|
| Grid.DictKey | 2048/main.py:111 | The key of a cell with one-digit coordinates is two characters, both decimal digits. |
| Grid.DictKeyInjective | 2048/main.py:111 | The key `f"{row}{col}"` of two cells with one-digit coordinates is equal exactly when the cells are equal, so a board keyed by the cell pair is the same dictionary. |
| Grid.SortKey | 2048/main.py:120-141 | The `key` lambdas: the column for left and right, the row for up and down. Its meaning for the sort is stated by Grid.KeyOrderIsDistanceOrder. |
| Grid.Reverse | 2048/main.py:120-141 | The `reverse` flags: descending order for right and down only. |
| Grid.Boundary | 2048/main.py:121-142 | The four `boundary` tests: column 0, column 3, row 0, row 3. Grid.BoundaryIsLeadingEdge proves they hold exactly at distance 0. |
| Grid.NextCell | 2048/main.py:119-146 | For a tile on the grid that is not on the boundary, the cell `next_tile` looks up is on the grid, in the same row (left/right) or column (up/down), and one step nearer the leading edge. |
| Grid.LineCell | 2048/main.py:119-146 | The cell at distance d of line l is on the grid for l, d in 0..3, and has exactly that line and distance. |
| Grid.BoundaryIsLeadingEdge | 2048/main.py:121-142 | The four `boundary` tests hold exactly for tiles at distance 0 from the edge moved toward. Every grid cell's distance and line lie in 0..3. |
| Grid.KeyOrderIsDistanceOrder | 2048/main.py:151 | Sorting by `key` (column or row), descending for right and down, puts tiles in order of distance from the leading edge. |
| Grid.TileValueDoubles | 2048/main.py:164 | Doubling a tile value (a power of two, at least 2) gives a tile value. |
| Grid.BoardSize | 2048/main.py:189 | A board on the 4x4 grid has at most 16 tiles, and exactly 16 iff every cell holds a tile. |
| Grid.Rebuilt | 2048/main.py:181-184 | The dictionary rebuilt from a tile list has exactly the positions of the listed tiles as its keys. |
| Grid.RebuiltDistinct | 2048/main.py:181-184 | When no two listed tiles share a position, the rebuilt dictionary has one entry per tile, each under its own position with its own value. |
| Grid.RebuiltCollision | 2048/main.py:181-184 | When two listed tiles share a position, the rebuilt dictionary has fewer entries than the list has tiles, so a tile is lost. |
| Grid.RebuiltSize | 2048/main.py:181-184 | The rebuilt dictionary never has more entries than the list has tiles. |
| Grid.RebuiltBoard | 2048/main.py:181-184 | Rebuilding from the tiles of a board gives back that board. |
| Engine.SortedTiles | 2048/main.py:151 | The sorted list holds every tile of the board exactly once, leading edge first, with keys ascending, or descending for right and down. |
| Engine.SortedByDistance | 2048/main.py:151 | In any list sorted as line 151 sorts, an earlier tile is no farther from the leading edge than a later one. |
| Engine.Merges | 2048/main.py:160 | The merge test after the slide: the tile in front has the same value, and neither tile is in `blocks`. When it holds, the partner is a tile on the grid, on the same line and strictly nearer the leading edge. |
| Engine.Slide | 2048/main.py:154-159 | A sliding tile stays on its line and gets no farther from the edge. It stops on the boundary or in front of a tile, every cell it passes over is empty, and a boundary tile stays put. |
| Engine.SlideTargetFree | 2048/main.py:158-159 | The cell a moving tile stops on held no tile. |
| Engine.StepTile | 2048/main.py:153-174 | Every tile's turn keeps the board on the grid with power-of-two values. |
| Engine.MergeTarget | 2048/main.py:160-167 | A merge needs an equal tile in front of the slid tile, with neither in `blocks`. The front tile doubles, joins `blocks` and adds its new value to the score, and the moving tile is removed. |
| Engine.StepTileFrame | 2048/main.py:153-174 | A turn never unblocks a cell or moves a blocked tile. It changes nothing off the tile's line, or farther than the tile from the edge. |
| Engine.MergeConserves | 2048/main.py:164-167 | A merge keeps the tile total, removes one tile, adds one blocked tile, and adds the blocked tile's value to the gain. |
| Engine.SlideConserves | 2048/main.py:158-171 | A tile that does not merge keeps the tile count, the total, `blocks` and the gain. |
| Engine.Process | 2048/main.py:153-174 | The tiles of a list take their turns one after the other. The board stays on the grid with tile values. |
| Engine.Move | 2048/main.py:115-178 | The discrete outcome of move_tiles: the sorted tiles take their turns from a start with nothing blocked and nothing gained. The board stays valid; what it moves to is stated by LineMerge.MoveIsCollapse and Engine.MoveConserves. |
| Engine.ProcessConserves | 2048/main.py:153-174 | After any prefix of the turns, the move's accounting holds, and every tile still to come is in place and unblocked. |
| Engine.MoveConserves | 2048/main.py:148-178 | Under the discrete rule, a move keeps the sum of tile values. The tile count drops by exactly the number of merges. The score gained is the sum of the merged tiles' values, so it is never negative. Every merged tile is on the new board. The frame loop as written does not keep the sum (see Findings). |
| Engine.OrderConserves | 2048/main.py:148-178 | The same conservation for every order line 151 may produce, whatever it does with tiles of equal key. |
| Engine.MoveGainNonNegative | 2048/main.py:165 | A move never lowers the score. |
| Engine.MergedTilesFrozen | 2048/main.py:160 | No double merge: a tile in `blocks` stays in `blocks`, in the same cell with the same value, for the rest of the move. |
| Engine.Turn | 2048/main.py:153-174 | The loop that advances a tile cell by cell and then merges or settles ends in the state of the tile's turn. |
| Engine.TakeTurns | 2048/main.py:153-174 | Running the turns of a sorted tile list in order leaves the state of the whole move. |
| Engine.ResolveMove | 2048/main.py:148-176 | The board and score move_tiles hands to update_tiles are the move's board and the old score plus the move's gain. |
| LineMerge.Collapse | 2048/main.py:160-167 | The reference rule for one line read from the leading edge: equal neighbours at the front merge into one tile that merges no further. The result is never longer than the line, and at least half as long. |
| LineMerge.CollapseGain | 2048/main.py:165 | The score of one line's collapse. For non-negative values it lies between 0 and the sum of the line's values. |
| LineMerge.CollapseConserves | 2048/main.py:164-167 | Collapsing a line keeps the sum of its values, and the score it yields is not negative for non-negative values. |
| LineMerge.PackEquivalence | 2048/main.py:153-174 | Scanning a line front first, with a merged tile blocked, gives the reference collapse and its score. |
| LineMerge.FrontIsPack | 2048/main.py:153-174 | After any prefix of the turns, the packed front of each line is the scan of that line's tiles in processing order. |
| LineMerge.ProcessedLine | 2048/main.py:151 | Once every tile has had its turn, each line's tiles were processed in the order they stand from the leading edge. |
| LineMerge.MoveInvAll | 2048/main.py:153-174 | After any prefix of the turns, each line is its packed front against the edge, followed by its unprocessed tiles in place. The gain is the sum of the fronts' gains. |
| LineMerge.MoveIsCollapse | 2048/main.py:115-178 | The discrete tile-by-tile move leaves exactly the board where each line is collapsed on its own and packed against the leading edge, and it scores exactly the sum of the four lines' collapse gains. The frame loop as written does not reach this on every board (see Findings). |
| LineMerge.ProcessIsCollapse | 2048/main.py:148-176 | The same holds for every order line 151 may produce, not only the one Engine.SortedTiles picks. |
| LineMerge.OrderIrrelevant | 2048/main.py:151 | Any two orders line 151 may produce give the same board and the same score. Breaking ties by dictionary order, as the source does, changes nothing. |
| LineMerge.CollapseExamples | 2048/main.py:160-167 | [2,2,2,2] collapses to [4,4] for 8, [2,2,4,4] to [4,8] for 12, [4,2,2] to [4,4] for 4 (no chained merge), and [2,4] stays [2,4] for 0. |
| Examples.FourTwos | 2048/main.py:115-178 | Under the discrete rule, a line of four 2s ends as [4, 4] at the leading edge, and its merges score 8. |
| Examples.TwoGapFour | 2048/main.py:115-178 | A line reading 2, gap, 4, gap ends as [2, 4] at the leading edge and scores 0. |
| Examples.TwoPairs | 2048/main.py:115-178 | Under the discrete rule, a line 2, 2, 4, 4 ends as [4, 8] and scores 12. |
| Examples.NoChainMerge | 2048/main.py:160 | A line 4, 2, 2 ends as [4, 4], not [8]: the new 4 is blocked. It scores 4. |
| Examples.FourTwosFrameCollision | 2048/main.py:181-184 | The list the tenth frame of a left move on 2, 2, 2, 2 hands to update_tiles has two tiles on one cell. The rebuilt dictionary keeps a 4 and one 2 and loses a tile. |
| Examples.TwoPairsFrameCollision | 2048/main.py:181-184 | The same collision on 2, 2, 4, 4 keeps the merged 4 and one of the two 4s. |
| Spawn.FirstFree | 2048/main.py:109-112 | The index of the first draw on a free cell: every earlier draw hits a tile, and it lies inside the stream iff some draw is free. |
| Spawn.GetRandomPos | 2048/main.py:108-112 | The rejection loop returns the first drawn cell that holds no tile, on the grid, and how many draws it took. |
| Spawn.EndMoveOutcome | 2048/main.py:188-193 | end_move's result: a loss exactly on 16 tiles. No tile is removed, and exactly one is added unless the move is lost. It uses no more draws than the stream holds. |
| Spawn.EndMoveLossRule | 2048/main.py:189-190 | end_move reports a loss exactly when every grid cell holds a tile, and then leaves the board and the stream untouched. |
| Spawn.EndMoveSpawnsOne | 2048/main.py:191-193 | Otherwise it adds exactly one tile of the chosen value on the first free drawn cell, and keeps every other tile. This holds whether or not the move changed anything. |
| Spawn.EndMoveKeepsValid | 2048/main.py:191-192 | A new tile of value 2 or 4 keeps the board on the grid with tile values. |
| Spawn.FullBoardHasNoFreeCell | 2048/main.py:189-191 | On a full board, no draw is free, so get_random_pos would never return. The 16-tile check prevents it being called. |
| Spawn.GenerateTiles | 2048/main.py:196-201 | The starting board has exactly two tiles with value 2, on the first draw and the first later draw on another cell. |
| Game.Game.constructor | 2048/main.py:207-209 | The game starts with two tiles with value 2, score 0, not over, and `status` not yet bound. |
| Game.Game.UpdateTiles | 2048/main.py:181-184 | The dictionary becomes the rebuild of the tile list. Nothing else changes. |
| Game.Game.EndMove | 2048/main.py:188-193 | The dictionary and the returned status are end_move's outcome on the old dictionary. |
| Game.Game.MoveTiles | 2048/main.py:115-178 | The dictionary ends as end_move applied to the move's board, and the returned score is the old one plus the move's gain. |
| Game.Game.Restart | 2048/main.py:220-223 | R while over gives a fresh two-tile board, score 0, not over. The stored `status` stays that of the lost move. |
| Game.Game.PlayArrow | 2048/main.py:233-240 | An arrow key stores the status and score move_tiles returns. The board stays valid, and the score never decreases. |
| Game.Game.HandleKeyAsWritten | 2048/main.py:214-242 | One key press as main handles it: R restarts a finished game; an arrow moves; then for any key the stored status sets `game_over` if lost, and an unbound status raises. |
| Game.Game.HandleKey | 2048/main.py:232-242 | The corrected handler: only the move an arrow key makes can end the game, and other keys while playing change nothing. |
| Game.StaleLossAfterRestart | 2048/main.py:241-242 | As written, after a loss and R, a non-arrow key declares the fresh game over. |
| Game.NoStaleLossAfterRestart | 2048/main.py:220-223 | With the corrected handler, the same presses leave the fresh game running. |
| Game.CrashOnFirstKey | 2048/main.py:232-241 | As written, a first key press that is not an arrow key reads `status` unbound. |
| Game.NoCrashOnFirstKey | 2048/main.py:232-241 | With the corrected handler, the same key press leaves the game running with score 0. |

## Left out

- Drawing is not modelled: `draw`, `draw_grid`, `draw_game_over`, the fonts, and the
  `draw` call inside `update_tiles`.
- The pixel animation of `move_tiles` is not modelled: pixel coordinates `x`/`y`,
  `MOVE_VEL`, `merge_check`, `move_check`, `set_pos(ceil)` and the repeated passes of
  `while updated` with `clock.tick`. Engine.Move, Engine.MoveConserves,
  LineMerge.MoveIsCollapse, Examples.FourTwos and Examples.TwoPairs state the discrete rule
  those passes aim at:
  - tiles in sort order each slide over empty cells;
  - a tile merges into an equal, unblocked tile in front of it, and the merged tile is
    removed.

  The frame loop as written does not reach that rule on ordinary rows. By a hand trace of
  lines 148-176 (not executed), moving left:
  - 2, 2, 2, 2 ends as [4, 2] with +4, where the rule gives [4, 4] with +8;
  - 2, 2, 4, 4 ends as [4, 4] with +4, where the rule gives [4, 8] with +12.

  In both, the tenth pass merges the second tile. `sorted_tiles.pop(i)` then makes the loop
  skip the third tile, the fourth advances into the third's column, and update_tiles keeps
  only one of the two (Examples.FourTwosFrameCollision, Examples.TwoPairsFrameCollision).
  The passes before and after that collision are hand-traced, not modelled.
- Engine.SortedTiles: equal sort keys come from the dictionary's insertion order in the
  source, but here they come in increasing line order. Engine.ProcessConserves,
  Engine.OrderConserves, Engine.MergedTilesFrozen and LineMerge.ProcessIsCollapse are
  stated for every order line 151 may produce. By LineMerge.OrderIrrelevant, every such
  order gives the board and score of Engine.Move. So the contracts stated for Engine.Move
  and the Game methods do not depend on this choice.
- The event loop is not modelled: pygame events, `QUIT`, `ESC` (the `run` flag) and the frame
  clock. Each call handles one key press, in the mode the game is in at that call. The
  source handles all events of one frame in the mode the frame started in (lines 214-242).
  So a second arrow key in the same batch as a losing move still calls `move_tiles`, and an
  R in the same batch as that move is ignored. The model does not capture this.
- Spawn.GetRandomPos: `random.randrange` becomes a caller-supplied stream of draws. The
  method requires that the stream reaches a free cell (`HitsFree`), instead of proving that
  the random loop ends with probability one. `random.choice([2, 4])` becomes a value
  parameter.
- Examples.FourTwos, Examples.TwoGapFour, Examples.TwoPairs and Examples.NoChainMerge each
  speak of one line of an arbitrary board. For score, they state that line's collapse gain.
  The board's score is the sum of the four lines' gains, by LineMerge.MoveIsCollapse.

## Findings

| source | as written | input that shows it | evidently intended | confidence | as-written member | corrected member |
|---|---|---|---|---|---|---|
| 2048/main.py:241-242 | The check `if status == "lost"` runs after every KEYDOWN, so it rereads the `status` of the last move. R (lines 220-223) does not reset it. | Lose a game, press R, then press any key that is not an arrow. The new two-tile game is declared over at once. | Only the move that an arrow key makes can end the game. | not executed | Game.StaleLossAfterRestart | Game.NoStaleLossAfterRestart |
| 2048/main.py:148-176 | update_tiles is called after every pass, with the pass's list. `sorted_tiles.pop(i)` removes the merged tile during the enumeration, so the loop skips the tile behind it. The next tile, which `merge_check` lets follow within 20 pixels, then rounds to the skipped tile's column. Two tiles in the list share a cell, and the dictionary keeps one. | A row 2, 2, 2, 2 moved left: the tenth pass hands update_tiles a 4 on column 0 and two 2s on column 2, and the row ends [4, 2] with +4. A row 2, 2, 4, 4 likewise ends [4, 4] with +4. | [4, 4] with +8 and [4, 8] with +12, with the sum of values kept. | not executed (hand trace of the frames) | Examples.FourTwosFrameCollision | Examples.FourTwos |
| 2048/main.py:232-241 | `status` is bound only by one of the arrow branches, but it is read for every KEYDOWN. | The first key press of a session is not an arrow key (space, say). Reading `status` raises UnboundLocalError. | Keys other than arrows change nothing while playing. | not executed | Game.CrashOnFirstKey | Game.NoCrashOnFirstKey |
