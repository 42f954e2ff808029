/** The reference rule a move follows: each line, read from the leading
    edge, collapses the way 2048 is played, and move_tiles' tile-by-tile
    processing produces exactly that on every line. */
module LineMerge {
  import opened Grid
  import opened Engine

  // ---------------------------------------------------------------------
  // The reference: one line read from the leading edge

  /** The textbook rule for one line, read from the leading edge: two equal
      neighbours at the front become one tile of twice the value, which
      takes no part in another merge; the rest of the line follows. */
  function Collapse(vs: seq<int>): (out: seq<int>)
    ensures |out| <= |vs| <= 2 * |out|
    decreases |vs|
  {
    if |vs| >= 2 && vs[0] == vs[1] then [2 * vs[0]] + Collapse(vs[2..])
    else if vs == [] then []
    else [vs[0]] + Collapse(vs[1..])
  }

  /** The score the rule produces on one line: the sum of the merged values. */
  function CollapseGain(vs: seq<int>): (g: int)
    ensures (forall i | 0 <= i < |vs| :: vs[i] >= 0) ==> 0 <= g <= Sum(vs)
    decreases |vs|
  {
    if |vs| >= 2 && vs[0] == vs[1] then
      assert vs[1..][1..] == vs[2..];
      assert forall i | 0 <= i < |vs[2..]| :: vs[2..][i] == vs[i + 2];
      2 * vs[0] + CollapseGain(vs[2..])
    else if vs == [] then 0
    else
      assert forall i | 0 <= i < |vs[1..]| :: vs[1..][i] == vs[i + 1];
      CollapseGain(vs[1..])
  }

  function Sum(vs: seq<int>): int
    decreases |vs|
  {
    if vs == [] then 0 else vs[0] + Sum(vs[1..])
  }

  /** Collapsing a line keeps the sum of its values, and scores at least
      nothing for lines of tile values. */
  lemma {:induction false} CollapseConserves(vs: seq<int>)
    ensures Sum(Collapse(vs)) == Sum(vs)
    ensures (forall i | 0 <= i < |vs| :: vs[i] >= 0) ==> CollapseGain(vs) >= 0
    decreases |vs|
  {
    if |vs| >= 2 && vs[0] == vs[1] {
      CollapseConserves(vs[2..]);
      assert vs[1..][1..] == vs[2..];
      assert forall i | 0 <= i < |vs[2..]| :: vs[2..][i] == vs[i + 2];
    } else if vs != [] {
      CollapseConserves(vs[1..]);
      assert forall i | 0 <= i < |vs[1..]| :: vs[1..][i] == vs[i + 1];
    }
  }

  // ---------------------------------------------------------------------
  // The same rule as a left-to-right scan, the shape of move_tiles' loop

  /** The packed front of a line during a scan: the values packed so far,
      whether the last of them may still merge (it is not in blocks), and
      the score gained. */
  datatype Packed = Packed(out: seq<int>, lastFree: bool, gain: int)

  const Unpacked := Packed([], false, 0)

  /** The next tile of the line joins the packed front: it merges into the
      last packed tile when the values match and that tile is free. */
  function PackStep(p: Packed, v: int): (r: Packed)
    ensures |r.out| <= |p.out| + 1
  {
    if p.out != [] && p.lastFree && p.out[|p.out| - 1] == v then
      Packed(p.out[..|p.out| - 1] + [2 * v], false, p.gain + 2 * v)
    else
      Packed(p.out + [v], true, p.gain)
  }

  /** The scan of vs, front first, from the packed front p. */
  function Pack(p: Packed, vs: seq<int>): Packed
    decreases |vs|
  {
    if vs == [] then p else Pack(PackStep(p, vs[0]), vs[1..])
  }

  /** Scanning one more value at the end is one more step of the scan. */
  lemma {:induction false} PackSnoc(p: Packed, vs: seq<int>, v: int)
    ensures Pack(p, vs + [v]) == PackStep(Pack(p, vs), v)
    decreases |vs|
  {
    if vs == [] {
      assert [] + [v] == [v];
      assert [v][1..] == [];
    } else {
      assert (vs + [v])[1..] == vs[1..] + [v];
      PackSnoc(PackStep(p, vs[0]), vs[1..], v);
    }
  }

  /** A free last tile that the next value cannot merge with scans like a blocked one. */
  lemma PackSkipFree(o: seq<int>, g: int, vs: seq<int>)
    requires o != [] && (vs == [] || vs[0] != o[|o| - 1])
    ensures Pack(Packed(o, true, g), vs).out == Pack(Packed(o, false, g), vs).out
    ensures Pack(Packed(o, true, g), vs).gain == Pack(Packed(o, false, g), vs).gain
  {
    if vs != [] {
      assert PackStep(Packed(o, true, g), vs[0]) == PackStep(Packed(o, false, g), vs[0]);
    }
  }

  /** Scanning from a packed front whose last tile is blocked appends the
      collapsed line and adds its score. */
  lemma {:induction false} PackIsCollapse(o: seq<int>, g: int, vs: seq<int>)
    ensures Pack(Packed(o, false, g), vs).out == o + Collapse(vs)
    ensures Pack(Packed(o, false, g), vs).gain == g + CollapseGain(vs)
    decreases |vs|
  {
    if vs == [] {
      assert o + [] == o;
    } else if |vs| >= 2 && vs[0] == vs[1] {
      PackMergeFront(o, g, vs);
    } else {
      PackKeepFront(o, g, vs);
    }
  }

  lemma {:induction false} PackMergeFront(o: seq<int>, g: int, vs: seq<int>)
    requires |vs| >= 2 && vs[0] == vs[1]
    ensures Pack(Packed(o, false, g), vs).out == o + Collapse(vs)
    ensures Pack(Packed(o, false, g), vs).gain == g + CollapseGain(vs)
    decreases |vs|, 0
  {
    var a, rest := vs[0], vs[2..];
    var q := Packed(o + [2 * a], false, g + 2 * a);
    assert Pack(Packed(o, false, g), vs) == Pack(q, rest) by {
      PackPair(o, g, vs);
    }
    PackIsCollapse(o + [2 * a], g + 2 * a, rest);
    CollapsePair(vs);
    Assoc(o, [2 * a], Collapse(rest));
  }

  lemma CollapsePair(vs: seq<int>)
    requires |vs| >= 2 && vs[0] == vs[1]
    ensures Collapse(vs) == [2 * vs[0]] + Collapse(vs[2..])
    ensures CollapseGain(vs) == 2 * vs[0] + CollapseGain(vs[2..])
  {
  }

  /** Two equal values at the front of the scan leave one merged, blocked tile. */
  lemma PackPair(o: seq<int>, g: int, vs: seq<int>)
    requires |vs| >= 2 && vs[0] == vs[1]
    ensures Pack(Packed(o, false, g), vs) == Pack(Packed(o + [2 * vs[0]], false, g + 2 * vs[0]), vs[2..])
  {
    var a := vs[0];
    var p1 := Packed(o + [a], true, g);
    assert PackStep(Packed(o, false, g), a) == p1;
    assert (o + [a])[..|o + [a]| - 1] == o;
    assert PackStep(p1, a) == Packed(o + [2 * a], false, g + 2 * a);
    assert vs[1..][1..] == vs[2..];
  }

  lemma {:induction false} PackKeepFront(o: seq<int>, g: int, vs: seq<int>)
    requires vs != [] && !(|vs| >= 2 && vs[0] == vs[1])
    ensures Pack(Packed(o, false, g), vs).out == o + Collapse(vs)
    ensures Pack(Packed(o, false, g), vs).gain == g + CollapseGain(vs)
    decreases |vs|, 0
  {
    var a, rest := vs[0], vs[1..];
    assert Pack(Packed(o, false, g), vs) == Pack(Packed(o + [a], true, g), rest);
    PackSkipFree(o + [a], g, rest);
    PackIsCollapse(o + [a], g, rest);
    Assoc(o, [a], Collapse(rest));
  }

  lemma Assoc(a: seq<int>, b: seq<int>, c: seq<int>)
    ensures a + b + c == a + (b + c)
  {
  }

  /** The scan from an empty front is the reference rule. */
  lemma PackEquivalence(vs: seq<int>)
    ensures Pack(Unpacked, vs).out == Collapse(vs)
    ensures Pack(Unpacked, vs).gain == CollapseGain(vs)
  {
    PackIsCollapse([], 0, vs);
    assert [] + Collapse(vs) == Collapse(vs);
  }

  // ---------------------------------------------------------------------
  // Lines of a board

  /** The four cells of line l, leading edge first. */
  function LineCells(dir: Direction, l: int): (cs: seq<Cell>)
    ensures |cs| == 4
    ensures forall d | 0 <= d < 4 :: cs[d] == LineCell(dir, l, d)
  {
    [LineCell(dir, l, 0), LineCell(dir, l, 1), LineCell(dir, l, 2), LineCell(dir, l, 3)]
  }

  function ValuesOf(b: Board, cs: seq<Cell>): (vs: seq<int>)
    ensures |vs| == |cs|
    ensures forall i | 0 <= i < |cs| :: vs[i] == Val(b, cs[i])
  {
    seq(|cs|, i requires 0 <= i < |cs| => Val(b, cs[i]))
  }

  /** The values on line l of b read from the leading edge, empty cells skipped. */
  function LineValues(b: Board, dir: Direction, l: int): seq<int> {
    ValuesOf(b, Occupied(b, LineCells(dir, l)))
  }

  /** The cells of cs that lie on line l, in the order of cs. */
  function OnLine(dir: Direction, l: int, cs: seq<Cell>): (r: seq<Cell>)
    ensures forall x :: x in r <==> x in cs && LineOf(dir, x) == l
    decreases |cs|
  {
    if cs == [] then []
    else
      var last := cs[|cs| - 1];
      assert cs == cs[..|cs| - 1] + [last];
      OnLine(dir, l, cs[..|cs| - 1]) + (if LineOf(dir, last) == l then [last] else [])
  }

  /** The packed front of line l once the tiles order[..k] have had their
      turn: the tiles of line l among them, in turn, joined the front. */
  function Front(b0: Board, dir: Direction, order: seq<Cell>, k: int, l: int): Packed
    requires 0 <= k <= |order|
    decreases k
  {
    if k == 0 then Unpacked
    else if LineOf(dir, order[k - 1]) == l then PackStep(Front(b0, dir, order, k - 1, l), Val(b0, order[k - 1]))
    else Front(b0, dir, order, k - 1, l)
  }

  /** The front is the scan of the values of line l's tiles in the order they were processed. */
  lemma {:induction false} FrontIsPack(b0: Board, dir: Direction, order: seq<Cell>, k: int, l: int)
    requires 0 <= k <= |order|
    ensures Front(b0, dir, order, k, l) == Pack(Unpacked, ValuesOf(b0, OnLine(dir, l, order[..k])))
    decreases k
  {
    if k == 0 {
      assert order[..0] == [];
      assert ValuesOf(b0, []) == [];
    } else {
      FrontIsPack(b0, dir, order, k - 1, l);
      var c := order[k - 1];
      assert order[..k][..k - 1] == order[..k - 1];
      var before := OnLine(dir, l, order[..k - 1]);
      if LineOf(dir, c) == l {
        assert OnLine(dir, l, order[..k]) == before + [c];
        var vs := ValuesOf(b0, before);
        assert ValuesOf(b0, before + [c]) == vs + [Val(b0, c)];
        PackSnoc(Unpacked, vs, Val(b0, c));
      } else {
        assert OnLine(dir, l, order[..k]) == before + [];
        assert before + [] == before;
      }
    }
  }

  // ---------------------------------------------------------------------
  // Reading a line in processing order is reading it from the leading edge

  /** Two sequences of cells in increasing rank that hold the same cells are equal. */
  lemma {:induction false} RankedUnique(dir: Direction, xs: seq<Cell>, ys: seq<Cell>)
    requires RankIncreasing(dir, xs) && RankIncreasing(dir, ys)
    requires forall x :: x in xs <==> x in ys
    ensures xs == ys
    decreases |xs|
  {
    RankedSameLength(dir, xs, ys);
    if xs != [] {
      RankedSameHead(dir, xs, ys);
      RankedTails(dir, xs, ys);
      RankedUnique(dir, xs[1..], ys[1..]);
      assert xs == [xs[0]] + xs[1..] && ys == [ys[0]] + ys[1..];
    }
  }

  lemma RankedSameLength(dir: Direction, xs: seq<Cell>, ys: seq<Cell>)
    requires RankIncreasing(dir, xs) && RankIncreasing(dir, ys)
    requires forall x :: x in xs <==> x in ys
    ensures |xs| == |ys|
  {
    assert NoDup(xs) && NoDup(ys);
    NoDupCard(xs);
    NoDupCard(ys);
    assert (set x | x in xs) == (set y | y in ys);
  }

  lemma RankedSameHead(dir: Direction, xs: seq<Cell>, ys: seq<Cell>)
    requires RankIncreasing(dir, xs) && RankIncreasing(dir, ys)
    requires forall x :: x in xs <==> x in ys
    requires xs != [] && ys != []
    ensures xs[0] == ys[0]
  {
    assert xs[0] in ys;
    var j :| 0 <= j < |ys| && ys[j] == xs[0];
    assert ys[0] in xs;
    var i :| 0 <= i < |xs| && xs[i] == ys[0];
    assert Rank(dir, ys[0]) <= Rank(dir, ys[j]);
    assert Rank(dir, xs[0]) <= Rank(dir, xs[i]);
    assert i == 0;
  }

  lemma RankedTails(dir: Direction, xs: seq<Cell>, ys: seq<Cell>)
    requires RankIncreasing(dir, xs) && RankIncreasing(dir, ys)
    requires forall x :: x in xs <==> x in ys
    requires xs != [] && ys != [] && xs[0] == ys[0]
    ensures RankIncreasing(dir, xs[1..]) && RankIncreasing(dir, ys[1..])
    ensures forall x :: x in xs[1..] <==> x in ys[1..]
  {
    RankedTail(dir, xs);
    RankedTail(dir, ys);
    forall x ensures x in xs[1..] <==> x in ys[1..] {
      if x in xs[1..] {
        TailMember(dir, xs, x);
        InTail(ys, x);
      }
      if x in ys[1..] {
        TailMember(dir, ys, x);
        InTail(xs, x);
      }
    }
  }

  lemma InTail(ys: seq<Cell>, x: Cell)
    requires ys != [] && x in ys && x != ys[0]
    ensures x in ys[1..]
  {
    assert ys == [ys[0]] + ys[1..];
  }

  lemma RankedTail(dir: Direction, xs: seq<Cell>)
    requires RankIncreasing(dir, xs) && xs != []
    ensures RankIncreasing(dir, xs[1..])
  {
    var xt := xs[1..];
    forall a, b | 0 <= a < b < |xt| ensures Rank(dir, xt[a]) < Rank(dir, xt[b]) {
      assert xt[a] == xs[a + 1] && xt[b] == xs[b + 1];
    }
  }

  /** A cell in the tail of a sequence in increasing rank is not its head. */
  lemma TailMember(dir: Direction, xs: seq<Cell>, x: Cell)
    requires RankIncreasing(dir, xs) && xs != [] && x in xs[1..]
    ensures x in xs && x != xs[0]
  {
    var m :| 0 <= m < |xs[1..]| && xs[1..][m] == x;
    assert xs[m + 1] == x;
  }

  /** Of two different grid cells on one line, the one processed first is nearer the leading edge. */
  lemma SameLineCloser(dir: Direction, x: Cell, c: Cell)
    requires InRange(x) && InRange(c) && LineOf(dir, x) == LineOf(dir, c)
    requires Distance(dir, x) <= Distance(dir, c) && x != c
    ensures Distance(dir, x) < Distance(dir, c) && Rank(dir, x) < Rank(dir, c)
  {
    if Distance(dir, x) == Distance(dir, c) {
      SameLineSameDistance(dir, x, c);
    }
  }

  lemma {:induction false} OnLineRanked(dir: Direction, l: int, order: seq<Cell>, k: int)
    requires SortedForMove(dir, order) && forall i | 0 <= i < |order| :: InRange(order[i])
    requires 0 <= k <= |order|
    ensures RankIncreasing(dir, OnLine(dir, l, order[..k]))
    decreases k
  {
    if k > 0 {
      OnLineRanked(dir, l, order, k - 1);
      var c := order[k - 1];
      assert order[..k][..k - 1] == order[..k - 1];
      var before := OnLine(dir, l, order[..k - 1]);
      if LineOf(dir, c) == l {
        EarlierOnLine(dir, l, order, k - 1);
        assert OnLine(dir, l, order[..k]) == before + [c];
        RankedSnoc(dir, before, c);
      } else {
        assert OnLine(dir, l, order[..k]) == before + [];
        assert before + [] == before;
      }
    }
  }

  /** The tiles of line l processed before order[k] rank below it. */
  lemma EarlierOnLine(dir: Direction, l: int, order: seq<Cell>, k: int)
    requires SortedForMove(dir, order) && forall i | 0 <= i < |order| :: InRange(order[i])
    requires 0 <= k < |order| && LineOf(dir, order[k]) == l
    ensures forall x | x in OnLine(dir, l, order[..k]) :: Rank(dir, x) < Rank(dir, order[k])
  {
    forall x | x in OnLine(dir, l, order[..k]) ensures Rank(dir, x) < Rank(dir, order[k]) {
      var i :| 0 <= i < k && order[i] == x;
      SortedByDistance(dir, order, i, k);
      SameLineCloser(dir, x, order[k]);
    }
  }

  lemma RankedSnoc(dir: Direction, xs: seq<Cell>, c: Cell)
    requires RankIncreasing(dir, xs) && forall x | x in xs :: Rank(dir, x) < Rank(dir, c)
    ensures RankIncreasing(dir, xs + [c])
  {
    var ys := xs + [c];
    forall a, b | 0 <= a < b < |ys| ensures Rank(dir, ys[a]) < Rank(dir, ys[b]) {
      assert ys[a] == xs[a];
      if b == |xs| {
        assert ys[a] in xs;
      } else {
        assert ys[b] == xs[b];
      }
    }
  }

  /** Once every tile has had its turn, the tiles of each line were processed
      in the order they stand from the leading edge. */
  lemma ProcessedLine(b: Board, dir: Direction, order: seq<Cell>, l: int)
    requires ValidBoard(b) && SortedForMove(dir, order)
    requires forall i | 0 <= i < |order| :: order[i] in b
    requires forall c | c in b :: c in order
    ensures OnLine(dir, l, order[..|order|]) == Occupied(b, LineCells(dir, l))
  {
    OnLineRanked(dir, l, order, |order|);
    var cells := LineCells(dir, l);
    assert RankIncreasing(dir, cells) by {
      forall a, b | 0 <= a < b < 4 ensures Rank(dir, cells[a]) < Rank(dir, cells[b]) {
      }
    }
    OccupiedKeepsRank(dir, b, cells);
    assert order[..|order|] == order;
    forall x ensures x in OnLine(dir, l, order) <==> x in Occupied(b, cells) {
      if x in b && LineOf(dir, x) == l {
        BoundaryIsLeadingEdge(dir, x);
        LineCellOf(dir, x);
        assert x == cells[Distance(dir, x)];
      }
      if x in cells {
        var d :| 0 <= d < 4 && cells[d] == x;
      }
    }
    RankedUnique(dir, OnLine(dir, l, order), Occupied(b, cells));
  }

  // ---------------------------------------------------------------------
  // What a line looks like while the move is under way

  /** Line l of s after the turns of order[..k], against the packed front p:
      the front's values stand packed against the leading edge; the last of
      them is blocked exactly when it came from a merge; beyond the front the
      line holds exactly the tiles still to come, none of them inside the front. */
  ghost predicate LineInv(dir: Direction, order: seq<Cell>, k: int, s: MoveState, l: int, p: Packed)
    requires 0 <= k <= |order|
  {
    && 0 <= l < 4 && |p.out| <= 4
    && (forall d | 0 <= d < |p.out| :: LineCell(dir, l, d) in s.board && s.board[LineCell(dir, l, d)] == p.out[d])
    && (forall d | |p.out| <= d < 4 :: LineCell(dir, l, d) in s.board <==> LineCell(dir, l, d) in order[k..])
    && (forall j | k <= j < |order| && LineOf(dir, order[j]) == l :: Distance(dir, order[j]) >= |p.out|)
    && (p.out != [] ==> (LineCell(dir, l, |p.out| - 1) in s.blocks <==> !p.lastFree))
  }

  /** The standing assumptions of a turn: the tile at c = order[k] has not moved yet and is not blocked. */
  ghost predicate TurnReady(dir: Direction, order: seq<Cell>, k: int, s: MoveState)
  {
    && ValidBoard(s.board) && s.blocks <= s.board.Keys
    && SortedForMove(dir, order) && (forall i | 0 <= i < |order| :: InRange(order[i]))
    && 0 <= k < |order| && order[k] in s.board && order[k] !in s.blocks
  }

  /** The tile whose turn it is slides exactly up to the packed front of its line. */
  lemma SlideToFront(dir: Direction, order: seq<Cell>, k: int, s: MoveState, p: Packed)
    requires TurnReady(dir, order, k, s)
    requires LineInv(dir, order, k, s, LineOf(dir, order[k]), p)
    ensures |p.out| <= Distance(dir, order[k])
    ensures Slide(s.board, dir, order[k]) == LineCell(dir, LineOf(dir, order[k]), |p.out|)
  {
    var c := order[k];
    var l := LineOf(dir, c);
    var m := |p.out|;
    var t := Slide(s.board, dir, c);
    assert Distance(dir, c) >= m;
    BoundaryIsLeadingEdge(dir, t);
    if !Boundary(dir, t) {
      var n := NextCell(dir, t);
      assert n in s.board && LineOf(dir, n) == l;
      LineCellOf(dir, n);
      BoundaryIsLeadingEdge(dir, n);
      assert Distance(dir, n) < m;
    }
    if m > 0 {
      assert LineCell(dir, l, m - 1) in s.board;
      assert !(Distance(dir, t) <= m - 1 < Distance(dir, c));
    }
    assert Distance(dir, t) == m;
    LineCellOf(dir, t);
  }

  /** The tile whose turn it is merges exactly when the packed front's last
      value is free and equal to it. */
  lemma MergeAtFront(dir: Direction, order: seq<Cell>, k: int, s: MoveState, p: Packed)
    requires TurnReady(dir, order, k, s)
    requires LineInv(dir, order, k, s, LineOf(dir, order[k]), p)
    ensures Merges(s, dir, order[k]) <==> p.out != [] && p.lastFree && p.out[|p.out| - 1] == s.board[order[k]]
    ensures p.out != [] ==> NextCell(dir, Slide(s.board, dir, order[k])) == LineCell(dir, LineOf(dir, order[k]), |p.out| - 1)
  {
    var c := order[k];
    var l := LineOf(dir, c);
    SlideToFront(dir, order, k, s, p);
    var t := Slide(s.board, dir, c);
    BoundaryIsLeadingEdge(dir, t);
    if p.out != [] {
      var n := NextCell(dir, t);
      LineCellOf(dir, n);
    }
  }

  /** What lies beyond the front after a turn: the tiles still to come, the
      tile that just moved no longer among them. */
  lemma RemainingAfterTurn(order: seq<Cell>, k: int, e: Cell)
    requires NoDup(order) && 0 <= k < |order|
    ensures e in order[k + 1..] <==> e in order[k..] && e != order[k]
  {
    assert order[k..] == [order[k]] + order[k + 1..];
    if e in order[k + 1..] {
      var m :| 0 <= m < |order[k + 1..]| && order[k + 1..][m] == e;
      assert e == order[k + 1 + m];
    }
  }

  /** A merge at the front of the line replaces the front's last value by its double and blocks it. */
  lemma LineMergeTurn(dir: Direction, order: seq<Cell>, k: int, s: MoveState, p: Packed)
    requires TurnReady(dir, order, k, s)
    requires LineInv(dir, order, k, s, LineOf(dir, order[k]), p)
    requires Merges(s, dir, order[k])
    ensures LineInv(dir, order, k + 1, StepTile(s, dir, order[k]), LineOf(dir, order[k]), PackStep(p, s.board[order[k]]))
    ensures StepTile(s, dir, order[k]).gain == s.gain + PackStep(p, s.board[order[k]]).gain - p.gain
  {
    var c := order[k];
    var l := LineOf(dir, c);
    var v := s.board[c];
    MergeAtFront(dir, order, k, s, p);
    SlideToFront(dir, order, k, s, p);
    var m := |p.out|;
    var n := LineCell(dir, l, m - 1);
    var r := StepTile(s, dir, c);
    assert r == MoveState((s.board - {c})[n := 2 * v], s.blocks + {n}, s.gain + 2 * v);
    var q := PackStep(p, v);
    assert q == Packed(p.out[..m - 1] + [2 * v], false, p.gain + 2 * v);
    assert |q.out| == m;
    forall d | 0 <= d < m ensures LineCell(dir, l, d) in r.board && r.board[LineCell(dir, l, d)] == q.out[d] {
      if d < m - 1 {
        assert LineCell(dir, l, d) != c;
        assert LineCell(dir, l, d) != n;
      }
    }
    forall d | m <= d < 4 ensures LineCell(dir, l, d) in r.board <==> LineCell(dir, l, d) in order[k + 1..] {
      RemainingAfterTurn(order, k, LineCell(dir, l, d));
    }
    forall j | k + 1 <= j < |order| && LineOf(dir, order[j]) == l ensures Distance(dir, order[j]) >= m {
      SortedByDistance(dir, order, k, j);
    }
  }

  /** A tile that does not merge joins the front: it stands right behind the
      front's last tile and is free. */
  lemma LineSlideTurn(dir: Direction, order: seq<Cell>, k: int, s: MoveState, p: Packed)
    requires TurnReady(dir, order, k, s)
    requires LineInv(dir, order, k, s, LineOf(dir, order[k]), p)
    requires !Merges(s, dir, order[k])
    ensures LineInv(dir, order, k + 1, StepTile(s, dir, order[k]), LineOf(dir, order[k]), PackStep(p, s.board[order[k]]))
    ensures StepTile(s, dir, order[k]).gain == s.gain + PackStep(p, s.board[order[k]]).gain - p.gain
  {
    var c := order[k];
    var l := LineOf(dir, c);
    var v := s.board[c];
    MergeAtFront(dir, order, k, s, p);
    SlideToFront(dir, order, k, s, p);
    var m := |p.out|;
    var t := LineCell(dir, l, m);
    var r := StepTile(s, dir, c);
    assert r == MoveState((s.board - {c})[t := v], s.blocks, s.gain);
    assert PackStep(p, v) == Packed(p.out + [v], true, p.gain);
    SlideTargetFree(s.board, dir, c);
    assert t !in s.blocks;
    JoinFront(dir, s.board, l, p.out, c);
    SlideBeyond(dir, order, k, s.board, l, m);
  }

  lemma JoinFront(dir: Direction, b: Board, l: int, out: seq<int>, c: Cell)
    requires 0 <= l < 4 && InRange(c) && LineOf(dir, c) == l && Distance(dir, c) >= |out| && c in b
    requires forall d | 0 <= d < |out| :: LineCell(dir, l, d) in b && b[LineCell(dir, l, d)] == out[d]
    ensures var b' := (b - {c})[LineCell(dir, l, |out|) := b[c]];
      forall d | 0 <= d < |out| + 1 :: LineCell(dir, l, d) in b' && b'[LineCell(dir, l, d)] == (out + [b[c]])[d]
  {
    var t := LineCell(dir, l, |out|);
    var b' := (b - {c})[t := b[c]];
    forall d | 0 <= d < |out| + 1 ensures LineCell(dir, l, d) in b' && b'[LineCell(dir, l, d)] == (out + [b[c]])[d] {
      if d < |out| {
        assert LineCell(dir, l, d) != c;
        assert LineCell(dir, l, d) != t;
      }
    }
  }

  lemma SlideBeyond(dir: Direction, order: seq<Cell>, k: int, b: Board, l: int, m: int)
    requires SortedForMove(dir, order) && (forall i | 0 <= i < |order| :: InRange(order[i]))
    requires 0 <= k < |order| && LineOf(dir, order[k]) == l && Distance(dir, order[k]) >= m
    requires forall d | m <= d < 4 :: LineCell(dir, l, d) in b <==> LineCell(dir, l, d) in order[k..]
    ensures var b' := (b - {order[k]})[LineCell(dir, l, m) := Val(b, order[k])];
      && (forall d | m + 1 <= d < 4 :: LineCell(dir, l, d) in b' <==> LineCell(dir, l, d) in order[k + 1..])
      && (forall j | k + 1 <= j < |order| && LineOf(dir, order[j]) == l :: Distance(dir, order[j]) >= m + 1)
  {
    var c := order[k];
    var b' := (b - {c})[LineCell(dir, l, m) := Val(b, c)];
    forall d | m + 1 <= d < 4 ensures LineCell(dir, l, d) in b' <==> LineCell(dir, l, d) in order[k + 1..] {
      RemainingAfterTurn(order, k, LineCell(dir, l, d));
    }
    forall j | k + 1 <= j < |order| && LineOf(dir, order[j]) == l ensures Distance(dir, order[j]) >= m + 1 {
      SortedByDistance(dir, order, k, j);
      SameLineCloser(dir, c, order[j]);
    }
  }

  /** A turn leaves every other line as it was. */
  lemma OtherLineTurn(dir: Direction, order: seq<Cell>, k: int, s: MoveState, l: int, p: Packed)
    requires TurnReady(dir, order, k, s)
    requires LineInv(dir, order, k, s, l, p) && l != LineOf(dir, order[k])
    ensures LineInv(dir, order, k + 1, StepTile(s, dir, order[k]), l, p)
  {
    var c := order[k];
    var r := StepTile(s, dir, c);
    StepTileFrame(s, dir, c);
    forall e | LineOf(dir, e) == l ensures (e in r.board <==> e in s.board) && Val(r.board, e) == Val(s.board, e) {
      if e in r.board {
        TileValueDoubles(r.board[e]);
      }
      if e in s.board {
        TileValueDoubles(s.board[e]);
      }
    }
    forall d | |p.out| <= d < 4 ensures LineCell(dir, l, d) in r.board <==> LineCell(dir, l, d) in order[k + 1..] {
      RemainingAfterTurn(order, k, LineCell(dir, l, d));
    }
  }

  // ---------------------------------------------------------------------
  // The whole move, line by line

  function FrontGain(b0: Board, dir: Direction, order: seq<Cell>, k: int): int
    requires 0 <= k <= |order|
  {
    Front(b0, dir, order, k, 0).gain + Front(b0, dir, order, k, 1).gain
      + Front(b0, dir, order, k, 2).gain + Front(b0, dir, order, k, 3).gain
  }

  /** Every line of s is laid out as its packed front says, and the score
      gained so far is what the four fronts gained. */
  ghost predicate MoveInv(b0: Board, dir: Direction, order: seq<Cell>, k: int, s: MoveState)
    requires 0 <= k <= |order|
  {
    && (forall l | 0 <= l < 4 :: LineOk(b0, dir, order, k, s, l))
    && s.gain == FrontGain(b0, dir, order, k)
  }

  ghost predicate LineOk(b0: Board, dir: Direction, order: seq<Cell>, k: int, s: MoveState, l: int)
    requires 0 <= k <= |order|
  {
    LineInv(dir, order, k, s, l, Front(b0, dir, order, k, l))
  }

  /** The orders move_tiles may process a board in: each tile once, leading edge first. */
  ghost predicate ProcessingOrder(b0: Board, dir: Direction, order: seq<Cell>) {
    && ValidBoard(b0) && SortedForMove(dir, order)
    && (forall i | 0 <= i < |order| :: order[i] in b0)
    && (forall c | c in b0 :: c in order)
  }

  lemma MoveInvStart(b0: Board, dir: Direction, order: seq<Cell>)
    requires ProcessingOrder(b0, dir, order)
    ensures MoveInv(b0, dir, order, 0, Start(b0))
  {
    forall l | 0 <= l < 4 ensures LineOk(b0, dir, order, 0, Start(b0), l) {
      StartLine(b0, dir, order, l);
    }
  }

  /** Before any turn, every line is an empty front followed by all of its tiles. */
  lemma StartLine(b0: Board, dir: Direction, order: seq<Cell>, l: int)
    requires ProcessingOrder(b0, dir, order) && 0 <= l < 4
    ensures LineOk(b0, dir, order, 0, Start(b0), l)
  {
    assert order[0..] == order;
  }

  lemma MoveInvStep(b0: Board, dir: Direction, order: seq<Cell>, k: int)
    requires ProcessingOrder(b0, dir, order) && 0 <= k < |order|
    requires MoveInv(b0, dir, order, k, Process(Start(b0), dir, order[..k]))
    ensures MoveInv(b0, dir, order, k + 1, Process(Start(b0), dir, order[..k + 1]))
  {
    var s := Process(Start(b0), dir, order[..k]);
    var c := order[k];
    assert TurnReady(dir, order, k, s) && s.board[c] == Val(b0, c) by {
      ProcessReady(b0, dir, order, k);
    }
    ProcessSnoc(Start(b0), dir, order, k);
    TurnKeepsLines(b0, dir, order, k, s);
  }

  /** One turn, given the layout before it, yields the layout after it. */
  lemma TurnKeepsLines(b0: Board, dir: Direction, order: seq<Cell>, k: int, s: MoveState)
    requires 0 <= k < |order| && TurnReady(dir, order, k, s) && s.board[order[k]] == Val(b0, order[k])
    requires MoveInv(b0, dir, order, k, s)
    ensures MoveInv(b0, dir, order, k + 1, StepTile(s, dir, order[k]))
  {
    var r, next := StepTile(s, dir, order[k]), k + 1;
    forall l | 0 <= l < 4 ensures LineOk(b0, dir, order, next, r, l) {
      TurnLine(b0, dir, order, k, s, l);
    }
    TurnGain(b0, dir, order, k, s);
  }

  /** One turn keeps the layout of each line: its own, as shown above, and every other one. */
  lemma TurnLine(b0: Board, dir: Direction, order: seq<Cell>, k: int, s: MoveState, l: int)
    requires 0 <= k < |order| && TurnReady(dir, order, k, s) && s.board[order[k]] == Val(b0, order[k])
    requires 0 <= l < 4 && LineOk(b0, dir, order, k, s, l)
    ensures LineOk(b0, dir, order, k + 1, StepTile(s, dir, order[k]), l)
  {
    BoundaryIsLeadingEdge(dir, order[k]);
    if l == LineOf(dir, order[k]) {
      TurnOwnLine(b0, dir, order, k, s);
    } else {
      OtherLineTurn(dir, order, k, s, l, Front(b0, dir, order, k, l));
    }
  }

  /** One turn gains what the front of its own line gains; the other fronts stay as they were. */
  lemma TurnGain(b0: Board, dir: Direction, order: seq<Cell>, k: int, s: MoveState)
    requires 0 <= k < |order| && TurnReady(dir, order, k, s) && s.board[order[k]] == Val(b0, order[k])
    requires forall l | 0 <= l < 4 :: LineOk(b0, dir, order, k, s, l)
    requires s.gain == FrontGain(b0, dir, order, k)
    ensures StepTile(s, dir, order[k]).gain == FrontGain(b0, dir, order, k + 1)
  {
    var l0 := LineOf(dir, order[k]);
    BoundaryIsLeadingEdge(dir, order[k]);
    assert LineOk(b0, dir, order, k, s, l0);
    TurnOwnLine(b0, dir, order, k, s);
    GainSplit(b0, dir, order, k, l0);
  }

  lemma GainSplit(b0: Board, dir: Direction, order: seq<Cell>, k: int, l0: int)
    requires 0 <= k < |order| && 0 <= l0 < 4
    requires forall l | 0 <= l < 4 && l != l0 :: Front(b0, dir, order, k + 1, l) == Front(b0, dir, order, k, l)
    ensures FrontGain(b0, dir, order, k + 1) ==
      FrontGain(b0, dir, order, k) + Front(b0, dir, order, k + 1, l0).gain - Front(b0, dir, order, k, l0).gain
  {
  }

  lemma TurnOwnLine(b0: Board, dir: Direction, order: seq<Cell>, k: int, s: MoveState)
    requires 0 <= k < |order| && TurnReady(dir, order, k, s) && s.board[order[k]] == Val(b0, order[k])
    requires 0 <= LineOf(dir, order[k]) < 4
    requires LineOk(b0, dir, order, k, s, LineOf(dir, order[k]))
    ensures var l0 := LineOf(dir, order[k]);
      && LineOk(b0, dir, order, k + 1, StepTile(s, dir, order[k]), l0)
      && StepTile(s, dir, order[k]).gain == s.gain + Front(b0, dir, order, k + 1, l0).gain - Front(b0, dir, order, k, l0).gain
  {
    var c := order[k];
    var l0 := LineOf(dir, c);
    var p := Front(b0, dir, order, k, l0);
    if Merges(s, dir, c) {
      LineMergeTurn(dir, order, k, s, p);
    } else {
      LineSlideTurn(dir, order, k, s, p);
    }
  }

  lemma {:induction false} MoveInvAll(b0: Board, dir: Direction, order: seq<Cell>, k: int)
    requires ProcessingOrder(b0, dir, order) && 0 <= k <= |order|
    ensures MoveInv(b0, dir, order, k, Process(Start(b0), dir, order[..k]))
    decreases k
  {
    if k == 0 {
      MoveInvStart(b0, dir, order);
      assert order[..0] == [];
    } else {
      var j := k - 1;
      MoveInvAll(b0, dir, order, j);
      MoveInvStep(b0, dir, order, j);
      assert j + 1 == k;
    }
  }

  // ---------------------------------------------------------------------
  // The reference: every line collapsed on its own

  /** The line value for the cell at distance d of line l once its line is collapsed. */
  function CollapsedLine(b: Board, dir: Direction, l: int): seq<int> {
    Collapse(LineValues(b, dir, l))
  }

  /** The board a move should leave: line by line, the collapsed values packed
      against the leading edge, every other cell empty. */
  function Collapsed(b: Board, dir: Direction): (r: Board)
    ensures forall c | c in r :: InRange(c)
  {
    map c | c in GridCells() && 0 <= Distance(dir, c) < |CollapsedLine(b, dir, LineOf(dir, c))|
      :: CollapsedLine(b, dir, LineOf(dir, c))[Distance(dir, c)]
  }

  /** The points a move should score: what the four line collapses gain. */
  function CollapsedGain(b: Board, dir: Direction): int {
    CollapseGain(LineValues(b, dir, 0)) + CollapseGain(LineValues(b, dir, 1))
      + CollapseGain(LineValues(b, dir, 2)) + CollapseGain(LineValues(b, dir, 3))
  }

  /** Line l of bd holds exactly the values of line, packed against the leading edge. */
  predicate LaidOut(bd: Board, dir: Direction, l: int, line: seq<int>) {
    && (forall d | 0 <= d < 4 :: LineCell(dir, l, d) in bd <==> d < |line|)
    && (forall d | 0 <= d < |line| :: LineCell(dir, l, d) in bd && bd[LineCell(dir, l, d)] == line[d])
  }

  /** Once every turn is taken, line l holds exactly its packed front. */
  lemma FinalLine(dir: Direction, order: seq<Cell>, r: MoveState, l: int, p: Packed)
    requires LineInv(dir, order, |order|, r, l, p)
    ensures LaidOut(r.board, dir, l, p.out)
  {
    assert order[|order|..] == [];
  }

  /** After all turns, line l is its collapse, and its front gained what the collapse gains. */
  lemma FinalLineOf(b: Board, dir: Direction, order: seq<Cell>, r: MoveState, l: int)
    requires ProcessingOrder(b, dir, order) && 0 <= l < 4
    requires LineOk(b, dir, order, |order|, r, l)
    ensures LaidOut(r.board, dir, l, CollapsedLine(b, dir, l))
  {
    FinalFront(b, dir, order, l);
    FinalLine(dir, order, r, l, Front(b, dir, order, |order|, l));
  }

  /** After all turns, the front of line l is the collapse of the line and gained what it gains. */
  lemma FinalFront(b: Board, dir: Direction, order: seq<Cell>, l: int)
    requires ProcessingOrder(b, dir, order)
    ensures Front(b, dir, order, |order|, l).out == CollapsedLine(b, dir, l)
    ensures Front(b, dir, order, |order|, l).gain == CollapseGain(LineValues(b, dir, l))
  {
    FrontIsPack(b, dir, order, |order|, l);
    ProcessedLine(b, dir, order, l);
    PackEquivalence(LineValues(b, dir, l));
  }

  /** A board on the grid whose every line is laid out as its collapse is the collapsed board. */
  lemma BoardFromLines(b: Board, dir: Direction, bd: Board)
    requires forall c | c in bd :: InRange(c)
    requires forall l | 0 <= l < 4 :: LaidOut(bd, dir, l, CollapsedLine(b, dir, l))
    ensures bd == Collapsed(b, dir)
  {
    var c := Collapsed(b, dir);
    forall e | InRange(e) ensures (e in bd <==> e in c) && (e in c ==> bd[e] == c[e]) {
      CellFromLine(b, dir, bd, e);
    }
    SameBoard(bd, c);
  }

  lemma SameBoard(x: Board, y: Board)
    requires forall e | e in x :: InRange(e)
    requires forall e | e in y :: InRange(e)
    requires forall e | InRange(e) :: (e in x <==> e in y) && (e in y ==> x[e] == y[e])
    ensures x == y
  {
  }

  /** One cell of the grid, read off the layout of its line. */
  lemma CellFromLine(b: Board, dir: Direction, bd: Board, e: Cell)
    requires InRange(e)
    requires forall l | 0 <= l < 4 :: LaidOut(bd, dir, l, CollapsedLine(b, dir, l))
    ensures var c := Collapsed(b, dir); (e in bd <==> e in c) && (e in c ==> bd[e] == c[e])
  {
    LineCellOf(dir, e);
    BoundaryIsLeadingEdge(dir, e);
    var l := LineOf(dir, e);
    assert LaidOut(bd, dir, l, CollapsedLine(b, dir, l));
  }

  /** The lines once all of order has taken its turn. */
  lemma FinalLayout(b: Board, dir: Direction, order: seq<Cell>, r: MoveState)
    requires ProcessingOrder(b, dir, order) && MoveInv(b, dir, order, |order|, r)
    ensures forall l | 0 <= l < 4 :: LaidOut(r.board, dir, l, CollapsedLine(b, dir, l))
  {
    forall l | 0 <= l < 4 ensures LaidOut(r.board, dir, l, CollapsedLine(b, dir, l)) {
      FinalLineOf(b, dir, order, r, l);
    }
  }

  /** The score once all of order has taken its turn. */
  lemma FinalGain(b: Board, dir: Direction, order: seq<Cell>, r: MoveState)
    requires ProcessingOrder(b, dir, order) && r.gain == FrontGain(b, dir, order, |order|)
    ensures r.gain == CollapsedGain(b, dir)
  {
    FinalFront(b, dir, order, 0);
    FinalFront(b, dir, order, 1);
    FinalFront(b, dir, order, 2);
    FinalFront(b, dir, order, 3);
  }

  /** The tile-by-tile move of move_tiles leaves the board and the score that
      collapsing every line on its own gives. */
  lemma MoveIsCollapse(b: Board, dir: Direction)
    requires ValidBoard(b)
    ensures Move(b, dir).board == Collapsed(b, dir)
    ensures forall l | 0 <= l < 4 :: LaidOut(Move(b, dir).board, dir, l, CollapsedLine(b, dir, l))
    ensures Move(b, dir).gain == CollapsedGain(b, dir)
  {
    ProcessIsCollapse(b, dir, SortedTiles(b, dir));
  }

  /** The same holds for every order the sort may produce: which of the tiles
      with equal keys comes first does not matter. */
  lemma ProcessIsCollapse(b: Board, dir: Direction, order: seq<Cell>)
    requires ProcessingOrder(b, dir, order)
    ensures Process(Start(b), dir, order).board == Collapsed(b, dir)
    ensures forall l | 0 <= l < 4 :: LaidOut(Process(Start(b), dir, order).board, dir, l, CollapsedLine(b, dir, l))
    ensures Process(Start(b), dir, order).gain == CollapsedGain(b, dir)
  {
    OrderLaidOut(b, dir, order);
    OrderGain(b, dir, order);
    BoardFromLines(b, dir, Process(Start(b), dir, order).board);
  }

  /** Any two processing orders of a board leave the same board and score. */
  lemma OrderIrrelevant(b: Board, dir: Direction, order1: seq<Cell>, order2: seq<Cell>)
    requires ProcessingOrder(b, dir, order1) && ProcessingOrder(b, dir, order2)
    ensures Process(Start(b), dir, order1).board == Process(Start(b), dir, order2).board
    ensures Process(Start(b), dir, order1).gain == Process(Start(b), dir, order2).gain
  {
    ProcessIsCollapse(b, dir, order1);
    ProcessIsCollapse(b, dir, order2);
  }

  lemma OrderLaidOut(b: Board, dir: Direction, order: seq<Cell>)
    requires ProcessingOrder(b, dir, order)
    ensures forall l | 0 <= l < 4 :: LaidOut(Process(Start(b), dir, order).board, dir, l, CollapsedLine(b, dir, l))
  {
    assert order[..|order|] == order;
    var r := Process(Start(b), dir, order[..|order|]);
    assert MoveInv(b, dir, order, |order|, r) by {
      MoveInvAll(b, dir, order, |order|);
    }
    FinalLayout(b, dir, order, r);
  }

  lemma OrderGain(b: Board, dir: Direction, order: seq<Cell>)
    requires ProcessingOrder(b, dir, order)
    ensures Process(Start(b), dir, order).gain == CollapsedGain(b, dir)
  {
    assert order[..|order|] == order;
    var r := Process(Start(b), dir, order[..|order|]);
    assert r.gain == FrontGain(b, dir, order, |order|) by {
      MoveInvAll(b, dir, order, |order|);
    }
    FinalGain(b, dir, order, r);
  }

  /** Single lines: pairs merge from the leading edge
      and a merged tile does not merge again in the same move. */
  lemma CollapseExamples()
    ensures Collapse([2, 2, 2, 2]) == [4, 4] && CollapseGain([2, 2, 2, 2]) == 8
    ensures Collapse([2, 2, 4, 4]) == [4, 8] && CollapseGain([2, 2, 4, 4]) == 12
    ensures Collapse([4, 2, 2]) == [4, 4] && CollapseGain([4, 2, 2]) == 4
    ensures Collapse([2, 4]) == [2, 4] && CollapseGain([2, 4]) == 0
  {
  }
}
