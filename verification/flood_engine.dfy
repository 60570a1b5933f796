/** The three flood-fill engines, PercolationDFS, PercolationDFSFast and
    PercolationBFS, as one state type and one open operation parameterised by
    the engine: the naive engine recomputes every FULL mark on each open, the
    fast engines flood only from the site just opened, by recursive depth-first
    search or by a breadth-first queue. */
module FloodEngine {
  import opened Wrappers
  import opened Sites
  import opened Paths
  import opened Counting
  import opened FloodGrid
  import opened FloodInvariant
  import opened DepthFirst
  import opened BreadthFirst

  datatype Engine = DFS | DFSFast | BFS

  /** myGrid and myOpenCount. */
  datatype State = State(grid: Grid, openCount: int)

  /** What holds between calls: the grid has n > 0 rows, the count is the number
      of open sites, and FULL means reachable from the top. */
  ghost predicate Inv(s: State) {
    && s.grid.n > 0
    && WellFormed(s.grid)
    && s.openCount == CountTrue(OpenMask(s.grid))
    && FullIsReach(s.grid)
  }

  lemma NothingOpenNothingFull(n: nat)
    requires n > 0
    ensures CountTrue(seq(n * n, i => false)) == 0
    ensures forall q :: InBounds(n, q) ==> !ReachTop(n, seq(n * n, i => false), q)
  {
    var none := seq(n * n, i => false);
    CountNone(none);
    forall q | InBounds(n, q)
      ensures !ReachTop(n, none, q)
    {
      assert !Passable(n, none, q);
      if ReachTop(n, none, q) {
        ReachTopEnd(n, none, q);
      }
    }
  }

  /** The constructor: every site BLOCKED and no site open. */
  function New(n: nat): (s: State)
    requires n > 0
    ensures Inv(s) && s.grid.n == n && s.openCount == 0
    ensures forall q :: InBounds(n, q) ==> At(s.grid, q) == Blocked
  {
    NothingOpenNothingFull(n);
    var g := Grid(n, seq(n * n, i => Blocked));
    assert OpenMask(g) == seq(n * n, i => false);
    State(g, 0)
  }

  /** isOpen: throws outside the grid, otherwise answers whether the site has
      been opened. */
  function IsOpen(s: State, row: int, col: int): (r: Result<bool>)
    requires Inv(s)
    ensures r.Failure? <==> !InBounds(s.grid.n, Pos(row, col))
    ensures r.Failure? ==> r.error == IndexOutOfBounds(row, col)
    ensures r.Success? ==> (r.value <==> OpenMask(s.grid)[Index(s.grid.n, Pos(row, col))])
  {
    if !InBounds(s.grid.n, Pos(row, col)) then Failure(IndexOutOfBounds(row, col))
    else Success(At(s.grid, Pos(row, col)) != Blocked)
  }

  /** isFull: throws outside the grid, otherwise answers whether the site is
      reachable from the top through open sites. */
  function IsFull(s: State, row: int, col: int): (r: Result<bool>)
    requires Inv(s)
    ensures r.Failure? <==> !InBounds(s.grid.n, Pos(row, col))
    ensures r.Failure? ==> r.error == IndexOutOfBounds(row, col)
    ensures r.Success? ==> (r.value <==> ReachTop(s.grid.n, OpenMask(s.grid), Pos(row, col)))
  {
    if !InBounds(s.grid.n, Pos(row, col)) then Failure(IndexOutOfBounds(row, col))
    else Success(At(s.grid, Pos(row, col)) == Full)
  }

  /** numberOfOpenSites: the number of distinct sites opened so far. */
  function NumberOfOpenSites(s: State): (k: int)
    requires Inv(s)
    ensures k == CountTrue(OpenMask(s.grid))
  {
    s.openCount
  }

  /** The bottom-row site in column c is FULL. */
  predicate BottomFull(g: Grid, c: int)
    requires WellFormed(g) && g.n > 0
  {
    0 <= c < g.n && At(g, Pos(g.n - 1, c)) == Full
  }

  /** percolates: scans the last row for a FULL site, which happens exactly when
      some bottom-row site is reachable from the top. */
  method Percolates(s: State) returns (b: bool)
    requires Inv(s)
    ensures b <==> exists c :: 0 <= c < s.grid.n && BottomFull(s.grid, c)
    ensures b <==> Percolation(s.grid.n, OpenMask(s.grid))
  {
    var n := s.grid.n;
    var col := 0;
    while col < n
      invariant 0 <= col <= n
      invariant forall c :: 0 <= c < col ==> !BottomFull(s.grid, c)
    {
      if At(s.grid, Pos(n - 1, col)) == Full {
        assert BottomFull(s.grid, col) && BottomReached(n, OpenMask(s.grid), col);
        return true;
      }
      col := col + 1;
    }
    forall c | 0 <= c < n
      ensures !BottomReached(n, OpenMask(s.grid), c)
    {
      assert !BottomFull(s.grid, c);
    }
    return false;
  }

  /** clearFull: every FULL site becomes OPEN, nothing else changes. */
  method ClearFull(g: Grid) returns (h: Grid)
    requires WellFormed(g)
    ensures WellFormed(h) && h.n == g.n
    ensures forall q :: InBounds(g.n, q) ==> At(h, q) == (if At(g, q) == Full then Open else At(g, q))
  {
    h := g;
    var i := 0;
    while i < g.n
      invariant 0 <= i <= g.n
      invariant WellFormed(h) && h.n == g.n
      invariant forall q :: InBounds(g.n, q) && q.row < i ==> At(h, q) == (if At(g, q) == Full then Open else At(g, q))
      invariant forall q :: InBounds(g.n, q) && q.row >= i ==> At(h, q) == At(g, q)
    {
      var j := 0;
      while j < g.n
        invariant 0 <= j <= g.n
        invariant WellFormed(h) && h.n == g.n
        invariant forall q :: InBounds(g.n, q) && (q.row < i || (q.row == i && q.col < j)) ==> At(h, q) == (if At(g, q) == Full then Open else At(g, q))
        invariant forall q :: InBounds(g.n, q) && (q.row > i || (q.row == i && q.col >= j)) ==> At(h, q) == At(g, q)
      {
        if At(h, Pos(i, j)) == Full {
          h := Set(h, Pos(i, j), Open);
        }
        j := j + 1;
      }
      i := i + 1;
    }
  }

  /** PercolationDFS.updateOnOpen: clear every FULL mark, then flood from every
      top-row site. Starting from any grid, this establishes the invariant. */
  method UpdateNaive(g: Grid) returns (h: Grid)
    requires WellFormed(g) && g.n > 0
    ensures WellFormed(h) && h.n == g.n && OpenMask(h) == OpenMask(g)
    ensures FullIsReach(h)
  {
    var n := g.n;
    h := ClearFull(g);
    OpenMaskFromSites(g, h);
    var k := 0;
    while k < n
      invariant 0 <= k <= n
      invariant WellFormed(h) && h.n == n && OpenMask(h) == OpenMask(g)
      invariant Closed(h) && Sound(h)
      invariant forall c :: 0 <= c < k ==> At(h, Pos(0, c)) != Open
    {
      var h' := Dfs(h, Pos(0, k));
      if At(h, Pos(0, k)) == Open {
        assert Passable(n, OpenMask(h), Pos(0, k));
        ConnectsSelf(n, OpenMask(h), Pos(0, k));
      }
      FloodRestores(h, Pos(0, k), h');
      h := h';
      k := k + 1;
    }
    CharacteriseFull(h);
  }

  /** The flood of the fast engines: recursive for PercolationDFSFast, by queue
      for PercolationBFS; both give the same grid. */
  method Flood(g: Grid, p: Pos, breadth: bool) returns (h: Grid)
    requires WellFormed(g) && InBounds(g.n, p) && At(g, p) == Open
    ensures h == Dfs(g, p)
  {
    if breadth {
      h := Bfs(g, p);
    } else {
      h := Dfs(g, p);
    }
  }

  /** PercolationDFSFast.updateOnOpen, run on g, the grid g0 with p just opened.
      A site in row 0 floods at once; any other floods when it has a FULL
      neighbour, checked in the order up, down, right, left, and otherwise
      nothing happens. At most one flood is started, FULL marks are never
      removed, and the invariant of g0 is restored. */
  method UpdateFast(ghost g0: Grid, g: Grid, p: Pos, breadth: bool) returns (h: Grid, flooded: bool)
    requires FullIsReach(g0) && InBounds(g0.n, p) && At(g0, p) == Blocked && g == Set(g0, p, Open)
    ensures flooded <==> p.row == 0 || exists k :: 0 <= k < 4 && FullNeighbour(g, p, k)
    ensures flooded ==> h == Dfs(g, p)
    ensures !flooded ==> h == g
    ensures Grows(g, h) && OpenMask(h) == OpenMask(g)
    ensures FullIsReach(h)
  {
    if p.row == 0 {
      h := Flood(g, p, breadth);
      FastFloodRestores(g0, p, g, h);
      return h, true;
    }
    var i := 0;
    while i < 4
      invariant 0 <= i <= 4
      invariant forall k :: 0 <= k < i ==> !FullNeighbour(g, p, k)
    {
      var nb := Neighbour(p, i);
      if InBounds(g.n, nb) && At(g, nb) == Full {
        assert FullNeighbour(g, p, i);
        h := Flood(g, p, breadth);
        FastFloodRestores(g0, p, g, h);
        return h, true;
      }
      i := i + 1;
    }
    FastSkipKeeps(g0, p, g);
    return g, false;
  }

  /** open: throws outside the grid; re-opening an open site changes nothing;
      otherwise the site opens, the count grows by one, and the engine's update
      restores the invariant. Whatever the engine, the new grid is the reference
      grid of the new set of open sites, so the three engines agree after every
      call, and no FULL site is ever observed to become un-FULL. */
  method OpenSite(e: Engine, s: State, row: int, col: int) returns (r: Result<State>)
    requires Inv(s)
    ensures r.Failure? <==> !InBounds(s.grid.n, Pos(row, col))
    ensures r.Failure? ==> r.error == IndexOutOfBounds(row, col)
    ensures r.Success? && At(s.grid, Pos(row, col)) != Blocked ==> r.value == s
    ensures r.Success? && At(s.grid, Pos(row, col)) == Blocked ==> r.value.openCount == s.openCount + 1
    ensures r.Success? ==> Inv(r.value) && r.value.grid.n == s.grid.n
    ensures r.Success? ==> OpenMask(r.value.grid) == OpenMask(s.grid)[Index(s.grid.n, Pos(row, col)) := true]
    ensures r.Success? ==> r.value.grid == Reference(s.grid.n, OpenMask(r.value.grid))
    ensures r.Success? ==> forall q :: InBounds(s.grid.n, q) && At(s.grid, q) == Full ==> At(r.value.grid, q) == Full
  {
    var n := s.grid.n;
    var p := Pos(row, col);
    if !InBounds(n, p) {
      return Failure(IndexOutOfBounds(row, col));
    }
    if At(s.grid, p) != Blocked {
      assert OpenMask(s.grid)[Index(n, p) := true] == OpenMask(s.grid);
      FullIsReachReference(s.grid);
      return Success(s);
    }
    var g := Set(s.grid, p, Open);
    var h: Grid;
    var flooded: bool;
    match e {
      case DFS =>
        h := UpdateNaive(g);
      case DFSFast =>
        h, flooded := UpdateFast(s.grid, g, p, false);
      case BFS =>
        h, flooded := UpdateFast(s.grid, g, p, true);
    }
    OpenedState(s, p, g, h);
    r := Success(State(h, s.openCount + 1));
  }

  /** After the update of any engine: the invariant holds again, with one more
      open site, and every site FULL before is still FULL. */
  lemma OpenedState(s: State, p: Pos, g: Grid, h: Grid)
    requires Inv(s) && InBounds(s.grid.n, p) && At(s.grid, p) == Blocked && g == Set(s.grid, p, Open)
    requires WellFormed(h) && h.n == g.n && OpenMask(h) == OpenMask(g) && FullIsReach(h)
    ensures Inv(State(h, s.openCount + 1))
    ensures OpenMask(h) == OpenMask(s.grid)[Index(s.grid.n, p) := true]
    ensures h == Reference(s.grid.n, OpenMask(h))
    ensures forall q :: InBounds(s.grid.n, q) && At(s.grid, q) == Full ==> At(h, q) == Full
  {
    var n := s.grid.n;
    OpenedGrid(s.grid, p);
    FullIsReachReference(h);
    assert Within(OpenMask(s.grid), OpenMask(h));
    forall q | InBounds(n, q) && At(s.grid, q) == Full
      ensures At(h, q) == Full
    {
      ReachTopWithin(n, OpenMask(s.grid), OpenMask(h), q);
    }
  }
}
