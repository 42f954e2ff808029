/** The 4x4 board of the game: grid cells, the board dictionary, and the
    per-direction accessors (sort key, reverse flag, boundary test and
    next-cell lookup) that move_tiles builds for each of the four moves. */
module Grid {

  const Rows: int := 4
  const Cols: int := 4

  datatype Direction = Left | Right | Up | Down

  /** A grid coordinate. The source keys its dictionary by the string
      f"{row}{col}"; DictKeyInjective shows a pair can stand in for it. */
  datatype Cell = Cell(row: int, col: int)

  /** The tiles dictionary: the value of the tile stored at each occupied cell. */
  type Board = map<Cell, int>

  predicate InRange(c: Cell) {
    0 <= c.row < Rows && 0 <= c.col < Cols
  }

  /** Values a tile can hold: 2, 4, 8, 16, ... */
  predicate IsTileValue(v: int)
    decreases v
  {
    v == 2 || (v > 2 && v % 2 == 0 && IsTileValue(v / 2))
  }

  /** Every tile sits on the grid and holds a power of two of at least 2. */
  predicate ValidBoard(b: Board) {
    forall c | c in b :: InRange(c) && IsTileValue(b[c])
  }

  lemma TileValueDoubles(v: int)
    requires IsTileValue(v)
    ensures v >= 2 && IsTileValue(2 * v)
  {
    assert (2 * v) / 2 == v;
  }

  // ---------------------------------------------------------------------
  // The dictionary key f"{row}{col}"

  function Digit(n: int): char
    requires 0 <= n <= 9
  {
    (48 + n) as char
  }

  /** The source's dictionary key for a cell whose coordinates are digits. */
  function DictKey(c: Cell): (k: string)
    requires 0 <= c.row <= 9 && 0 <= c.col <= 9
    ensures |k| == 2 && '0' <= k[0] <= '9' && '0' <= k[1] <= '9'
  {
    [Digit(c.row), Digit(c.col)]
  }

  /** Two cells with one-digit coordinates share a key only if they are the
      same cell, so keying the board by the pair loses nothing. */
  lemma DictKeyInjective(c1: Cell, c2: Cell)
    requires 0 <= c1.row <= 9 && 0 <= c1.col <= 9
    requires 0 <= c2.row <= 9 && 0 <= c2.col <= 9
    ensures DictKey(c1) == DictKey(c2) <==> c1 == c2
  {
    if DictKey(c1) == DictKey(c2) {
      assert DictKey(c1)[0] == DictKey(c2)[0];
      assert DictKey(c1)[1] == DictKey(c2)[1];
    }
  }

  // ---------------------------------------------------------------------
  // The per-direction accessors of move_tiles

  /** The sort key: the column for left and right, the row for up and down. */
  function SortKey(dir: Direction, c: Cell): int {
    if dir == Left || dir == Right then c.col else c.row
  }

  /** Right and down sort in descending key order. */
  predicate Reverse(dir: Direction) {
    dir == Right || dir == Down
  }

  /** The edge test: the tile already touches the edge it moves toward. */
  predicate Boundary(dir: Direction, c: Cell) {
    match dir
    case Left => c.col == 0
    case Right => c.col == Cols - 1
    case Up => c.row == 0
    case Down => c.row == Rows - 1
  }

  /** The line a cell belongs to for a direction: its row for left and
      right, its column for up and down. */
  function LineOf(dir: Direction, c: Cell): int {
    if dir == Left || dir == Right then c.row else c.col
  }

  /** How many cells separate a cell from the leading edge of the move;
      it is the sort key, counted from the other end when the sort is reversed. */
  function Distance(dir: Direction, c: Cell): int {
    if !Reverse(dir) then SortKey(dir, c)
    else if dir == Right then Cols - 1 - SortKey(dir, c)
    else Rows - 1 - SortKey(dir, c)
  }

  /** The cell one step toward the edge: the cell next_tile looks up. It stays
      on the grid and in the same line, one step nearer the leading edge. */
  function NextCell(dir: Direction, c: Cell): (n: Cell)
    ensures InRange(c) && !Boundary(dir, c) ==>
              InRange(n) && LineOf(dir, n) == LineOf(dir, c) && Distance(dir, n) == Distance(dir, c) - 1
    ensures n != c
  {
    match dir
    case Left => Cell(c.row, c.col - 1)
    case Right => Cell(c.row, c.col + 1)
    case Up => Cell(c.row - 1, c.col)
    case Down => Cell(c.row + 1, c.col)
  }

  /** The cell at distance d from the leading edge on line l. */
  function LineCell(dir: Direction, l: int, d: int): (c: Cell)
    ensures 0 <= l < 4 && 0 <= d < 4 ==> InRange(c)
    ensures LineOf(dir, c) == l && Distance(dir, c) == d
  {
    match dir
    case Left => Cell(l, d)
    case Right => Cell(l, Cols - 1 - d)
    case Up => Cell(d, l)
    case Down => Cell(Rows - 1 - d, l)
  }

  /** A tile is on the boundary exactly when it is at distance 0, and the
      distance of a cell on the grid lies in 0..3. */
  lemma BoundaryIsLeadingEdge(dir: Direction, c: Cell)
    requires InRange(c)
    ensures Boundary(dir, c) <==> Distance(dir, c) == 0
    ensures 0 <= Distance(dir, c) < 4 && 0 <= LineOf(dir, c) < 4
  {
  }

  /** A cell on the grid is determined by its line and its distance. */
  lemma LineCellOf(dir: Direction, c: Cell)
    requires InRange(c)
    ensures LineCell(dir, LineOf(dir, c), Distance(dir, c)) == c
  {
  }

  lemma SameLineSameDistance(dir: Direction, c1: Cell, c2: Cell)
    requires InRange(c1) && InRange(c2)
    requires LineOf(dir, c1) == LineOf(dir, c2) && Distance(dir, c1) == Distance(dir, c2)
    ensures c1 == c2
  {
    LineCellOf(dir, c1);
    LineCellOf(dir, c2);
  }

  /** Sorting by the key, descending when the sort is reversed, is sorting
      by distance to the leading edge. */
  lemma KeyOrderIsDistanceOrder(dir: Direction, c1: Cell, c2: Cell)
    ensures (if Reverse(dir) then SortKey(dir, c1) >= SortKey(dir, c2) else SortKey(dir, c1) <= SortKey(dir, c2))
            <==> Distance(dir, c1) <= Distance(dir, c2)
  {
  }

  // ---------------------------------------------------------------------
  // All cells, sums and counts

  /** The sixteen cells, row by row. */
  function AllCells(): (cs: seq<Cell>)
    ensures |cs| == 16
    ensures forall i | 0 <= i < 16 :: cs[i] == Cell(i / 4, i % 4)
  {
    seq(16, i requires 0 <= i < 16 => Cell(i / 4, i % 4))
  }

  predicate NoDup<T(==)>(s: seq<T>) {
    forall i, j | 0 <= i < j < |s| :: s[i] != s[j]
  }

  lemma AllCellsComplete()
    ensures NoDup(AllCells())
    ensures forall c :: c in AllCells() <==> InRange(c)
  {
    var cs := AllCells();
    forall i, j | 0 <= i < j < 16 ensures cs[i] != cs[j] {
      assert i == 4 * (i / 4) + i % 4 && j == 4 * (j / 4) + j % 4;
    }
    forall c | InRange(c) ensures c in cs {
      var k := 4 * c.row + c.col;
      assert k / 4 == c.row && k % 4 == c.col;
      assert cs[k] == c;
    }
  }

  /** The value at a cell, 0 when the cell is empty. */
  function Val(b: Board, c: Cell): int {
    if c in b then b[c] else 0
  }

  function SumOver(b: Board, cs: seq<Cell>): int
    decreases |cs|
  {
    if cs == [] then 0 else Val(b, cs[0]) + SumOver(b, cs[1..])
  }

  /** The sum of all tile values on the board. */
  function Total(b: Board): int {
    SumOver(b, AllCells())
  }

  /** Changing the board at one cell changes a duplicate-free sum by the change at that cell. */
  lemma {:induction false} SumOverUpdate(b1: Board, b2: Board, cs: seq<Cell>, p: Cell)
    requires NoDup(cs)
    requires forall c | c != p :: Val(b1, c) == Val(b2, c)
    ensures SumOver(b2, cs) == SumOver(b1, cs) + (if p in cs then Val(b2, p) - Val(b1, p) else 0)
    decreases |cs|
  {
    if cs != [] {
      assert NoDup(cs[1..]) by {
        forall i, j | 0 <= i < j < |cs[1..]| ensures cs[1..][i] != cs[1..][j] {
          assert cs[1..][i] == cs[i + 1] && cs[1..][j] == cs[j + 1];
        }
      }
      SumOverUpdate(b1, b2, cs[1..], p);
      if cs[0] == p {
        assert p !in cs[1..] by {
          forall k | 0 <= k < |cs[1..]| ensures cs[1..][k] != p {
            assert cs[1..][k] == cs[k + 1];
          }
        }
      }
      assert p in cs <==> cs[0] == p || p in cs[1..];
    }
  }

  /** Changing the board at one cell of the grid changes the total by the change at that cell. */
  lemma TotalUpdate(b1: Board, b2: Board, p: Cell)
    requires InRange(p)
    requires forall c | c != p :: Val(b1, c) == Val(b2, c)
    ensures Total(b2) == Total(b1) + Val(b2, p) - Val(b1, p)
  {
    AllCellsComplete();
    SumOverUpdate(b1, b2, AllCells(), p);
  }

  /** The set of all cells of the grid. */
  function GridCells(): (s: set<Cell>)
    ensures forall c :: c in s <==> InRange(c)
  {
    AllCellsComplete();
    set c | c in AllCells()
  }

  lemma {:induction false} NoDupCard<T>(s: seq<T>)
    requires NoDup(s)
    ensures |set x | x in s| == |s|
    decreases |s|
  {
    if s != [] {
      var rest := s[1..];
      assert NoDup(rest) by {
        forall i, j | 0 <= i < j < |rest| ensures rest[i] != rest[j] {
          assert rest[i] == s[i + 1] && rest[j] == s[j + 1];
        }
      }
      NoDupCard(rest);
      assert s[0] !in rest by {
        forall k | 0 <= k < |rest| ensures rest[k] != s[0] {
          assert rest[k] == s[k + 1];
        }
      }
      assert (set x | x in s) == {s[0]} + (set x | x in rest);
    }
  }

  lemma GridCellsCard()
    ensures |GridCells()| == 16
  {
    AllCellsComplete();
    NoDupCard(AllCells());
    assert GridCells() == set x | x in AllCells();
  }

  lemma {:induction false} SubsetCard<T>(a: set<T>, b: set<T>)
    requires a <= b
    ensures |a| <= |b|
    decreases |a|
  {
    if a != {} {
      var x :| x in a;
      SubsetCard(a - {x}, b - {x});
    }
  }

  /** A board on the grid holds at most sixteen tiles, and exactly sixteen
      when every cell is occupied. */
  lemma BoardSize(b: Board)
    requires ValidBoard(b)
    ensures |b| <= 16
    ensures |b| == 16 <==> forall c | InRange(c) :: c in b
  {
    GridCellsCard();
    assert b.Keys <= GridCells();
    SubsetCard(b.Keys, GridCells());
    if |b| == 16 {
      forall c | InRange(c) ensures c in b {
        if c !in b {
          SubsetCard(b.Keys, GridCells() - {c});
        }
      }
    }
    if forall c | InRange(c) :: c in b {
      assert b.Keys == GridCells();
    }
  }

  // ---------------------------------------------------------------------
  // update_tiles

  /** A tile as the source stores it: its value and its grid position. */
  datatype Tile = Tile(value: int, row: int, col: int)

  function PosOf(t: Tile): Cell {
    Cell(t.row, t.col)
  }

  /** The dictionary update_tiles rebuilds from the list of surviving tiles:
      each tile is stored under the key of its own position, a later tile
      replacing an earlier one at the same position. */
  function Rebuilt(ts: seq<Tile>): (d: Board)
    ensures d.Keys == Positions(ts)
    decreases |ts|
  {
    if ts == [] then map[]
    else Rebuilt(ts[..|ts| - 1])[PosOf(ts[|ts| - 1]) := ts[|ts| - 1].value]
  }

  /** The positions of a list of tiles. */
  function Positions(ts: seq<Tile>): (s: set<Cell>)
    ensures forall i | 0 <= i < |ts| :: PosOf(ts[i]) in s
    ensures forall c | c in s :: exists i | 0 <= i < |ts| :: PosOf(ts[i]) == c
  {
    set i | 0 <= i < |ts| :: PosOf(ts[i])
  }

  predicate DistinctPositions(ts: seq<Tile>) {
    forall i, j | 0 <= i < j < |ts| :: PosOf(ts[i]) != PosOf(ts[j])
  }

  /** When no two tiles share a position, the rebuilt dictionary holds every
      tile under the key of its own position, one entry per tile. */
  lemma RebuiltDistinct(ts: seq<Tile>)
    requires DistinctPositions(ts)
    ensures |Rebuilt(ts)| == |ts|
    ensures forall i | 0 <= i < |ts| :: Rebuilt(ts)[PosOf(ts[i])] == ts[i].value
  {
    DistinctSize(ts);
    forall i | 0 <= i < |ts| ensures Rebuilt(ts)[PosOf(ts[i])] == ts[i].value {
      DistinctLookup(ts, i);
    }
  }

  lemma DistinctInit(ts: seq<Tile>)
    requires DistinctPositions(ts) && ts != []
    ensures DistinctPositions(ts[..|ts| - 1])
    ensures PosOf(ts[|ts| - 1]) !in Positions(ts[..|ts| - 1])
  {
    var n := |ts| - 1;
    var init := ts[..n];
    forall i, j | 0 <= i < j < n ensures PosOf(init[i]) != PosOf(init[j]) {
      assert init[i] == ts[i] && init[j] == ts[j];
    }
    forall i | 0 <= i < n ensures PosOf(init[i]) != PosOf(ts[n]) {
      assert init[i] == ts[i];
    }
  }

  lemma {:induction false} DistinctSize(ts: seq<Tile>)
    requires DistinctPositions(ts)
    ensures |Rebuilt(ts)| == |ts|
    decreases |ts|
  {
    if ts != [] {
      DistinctInit(ts);
      DistinctSize(ts[..|ts| - 1]);
    }
  }

  lemma {:induction false} DistinctLookup(ts: seq<Tile>, i: int)
    requires DistinctPositions(ts) && 0 <= i < |ts|
    ensures PosOf(ts[i]) in Rebuilt(ts) && Rebuilt(ts)[PosOf(ts[i])] == ts[i].value
    decreases |ts|
  {
    var n := |ts| - 1;
    if i < n {
      var init := ts[..n];
      DistinctInit(ts);
      assert init[i] == ts[i];
      DistinctLookup(init, i);
    }
  }

  /** The rebuilt dictionary never has more entries than there are tiles. */
  lemma {:induction false} RebuiltSize(ts: seq<Tile>)
    ensures |Rebuilt(ts)| <= |ts|
    decreases |ts|
  {
    if ts != [] {
      RebuiltSize(ts[..|ts| - 1]);
    }
  }

  /** When two tiles share a position, the rebuilt dictionary has fewer
      entries than there are tiles: one of them is no longer reachable. */
  lemma {:induction false} RebuiltCollision(ts: seq<Tile>, i: int, j: int)
    requires 0 <= i < j < |ts| && PosOf(ts[i]) == PosOf(ts[j])
    ensures |Rebuilt(ts)| < |ts|
    decreases |ts|
  {
    var init := ts[..|ts| - 1];
    assert forall k | 0 <= k < |init| :: init[k] == ts[k];
    if j == |ts| - 1 {
      RebuiltSize(init);
      assert PosOf(init[i]) == PosOf(ts[j]);
      assert PosOf(ts[j]) in Rebuilt(init);
    } else {
      RebuiltCollision(init, i, j);
    }
  }

  /** The tiles of b on the cells cs, in the order of cs: the list a board's
      dictionary values form. */
  function TilesOn(b: Board, cs: seq<Cell>): (ts: seq<Tile>)
    ensures |ts| <= |cs|
    ensures forall i | 0 <= i < |ts| :: PosOf(ts[i]) in b && PosOf(ts[i]) in cs && ts[i].value == b[PosOf(ts[i])]
    decreases |cs|
  {
    if cs == [] then []
    else
      var rest := TilesOn(b, cs[..|cs| - 1]);
      var c := cs[|cs| - 1];
      if c in b then rest + [Tile(b[c], c.row, c.col)] else rest
  }

  /** Rebuilding a dictionary from the tiles of b on cs gives back b on those cells. */
  lemma {:induction false} RebuiltTilesOn(b: Board, cs: seq<Cell>)
    ensures forall c :: c in Rebuilt(TilesOn(b, cs)) <==> c in b && c in cs
    ensures forall c | c in Rebuilt(TilesOn(b, cs)) :: Rebuilt(TilesOn(b, cs))[c] == b[c]
    decreases |cs|
  {
    if cs != [] {
      var init := cs[..|cs| - 1];
      RebuiltTilesOn(b, init);
      var c := cs[|cs| - 1];
      assert forall x :: x in cs <==> x in init || x == c;
      if c in b {
        var rest := TilesOn(b, init);
        var ts := rest + [Tile(b[c], c.row, c.col)];
        assert ts[..|ts| - 1] == rest;
      }
    }
  }

  /** update_tiles applied to the tiles of a board gives back that board. */
  lemma RebuiltBoard(b: Board)
    requires ValidBoard(b)
    ensures Rebuilt(TilesOn(b, AllCells())) == b
  {
    AllCellsComplete();
    RebuiltTilesOn(b, AllCells());
  }
}
