/** The four engines side by side: fed the same calls to open, the flood-fill
    engines and the union-find engine hold the same open sites and the same
    count, agree on percolates, and agree on isFull until the system
    percolates; after that the union-find engine may report backwash. */
module Agreement {
  import opened Wrappers
  import opened Sites
  import opened Paths
  import opened FloodGrid
  import opened FloodInvariant
  import QuickFind
  import Augmented
  import opened BackwashGrid
  import F = FloodEngine
  import U = UnionFindEngine

  /** The two engines hold the same n-by-n picture: the same open sites, the
      same count, and the flood grid is the reference grid of those sites. */
  ghost predicate Same(n: nat, fs: F.State, us: U.State) {
    && F.Inv(fs) && U.Inv(us) && fs.grid.n == n && us.n == n
    && OpenMask(fs.grid) == us.grid
    && fs.openCount == us.openCount
    && fs.grid == Reference(n, us.grid)
  }

  /** One call open(p.row, p.col) on both engines: both throw or neither does,
      and the picture stays the same on both sides. */
  method Step(e: F.Engine, n: nat, fs: F.State, us: U.State, p: Pos) returns (fs': F.State, us': U.State)
    requires Same(n, fs, us)
    ensures Same(n, fs', us')
    ensures InBounds(n, p) ==> us'.grid == us.grid[Index(n, p) := true]
    ensures !InBounds(n, p) ==> us' == us && fs' == fs
  {
    var fr := F.OpenSite(e, fs, p.row, p.col);
    var ur := U.OpenSite(us, p.row, p.col);
    if fr.Success? {
      return fr.value, ur.value;
    }
    return fs, us;
  }

  /** Opening p adds exactly p to the in-bounds sites recorded by a mask. */
  lemma MarkSite(n: nat, grid: seq<bool>, prefix: seq<Pos>, p: Pos)
    requires |grid| == n * n && InBounds(n, p)
    requires forall q :: InBounds(n, q) ==> (grid[Index(n, q)] <==> q in prefix)
    ensures forall q :: InBounds(n, q) ==> (grid[Index(n, p) := true][Index(n, q)] <==> q in prefix + [p])
  {
    forall q | InBounds(n, q)
      ensures grid[Index(n, p) := true][Index(n, q)] <==> q in prefix + [p]
    {
      IndexInjective(n, p, q);
    }
  }

  /** Runs the calls open(q.row, q.col), q in sites, on a fresh n-by-n flood
      engine of kind e and on a fresh union-find engine, skipping the calls
      that throw. Both end with exactly the in-bounds sites of the list open,
      the same count, and the flood grid is the reference grid of those sites. */
  method Run(e: F.Engine, n: nat, sites: seq<Pos>) returns (fs: F.State, us: U.State)
    requires n > 0
    ensures Same(n, fs, us)
    ensures forall q :: InBounds(n, q) ==> (us.grid[Index(n, q)] <==> q in sites)
  {
    fs := F.New(n);
    us := U.New(n);
    FullIsReachReference(fs.grid);
    var i := 0;
    while i < |sites|
      invariant 0 <= i <= |sites|
      invariant Same(n, fs, us)
      invariant forall q :: InBounds(n, q) ==> (us.grid[Index(n, q)] <==> q in sites[..i])
    {
      var p := sites[i];
      assert sites[..i + 1] == sites[..i] + [p];
      if InBounds(n, p) {
        MarkSite(n, us.grid, sites[..i], p);
      }
      fs, us := Step(e, n, fs, us, p);
      i := i + 1;
    }
    assert sites[..i] == sites;
  }

  /** The flood engine's percolates and the union-find engine's percolates give
      the same answer after the same calls. */
  method Compare(e: F.Engine, n: nat, sites: seq<Pos>) returns (floodPercolates: bool, unionPercolates: bool)
    requires n > 0
    ensures floodPercolates == unionPercolates
  {
    var fs, us := Run(e, n, sites);
    floodPercolates := F.Percolates(fs);
    unionPercolates := U.Percolates(us);
  }

  /** isFull of the flood engines implies isFull of the union-find engine on the
      same open sites, and without percolation the two are equal. */
  lemma IsFullAgree(fs: F.State, us: U.State, q: Pos)
    requires F.Inv(fs) && U.Inv(us) && fs.grid.n == us.n && OpenMask(fs.grid) == us.grid
    requires InBounds(us.n, q)
    ensures F.IsFull(fs, q.row, q.col).value ==> U.IsFull(us, q.row, q.col).value
    ensures !U.Percolates(us) ==> F.IsFull(fs, q.row, q.col) == U.IsFull(us, q.row, q.col)
  {
  }

  /** Backwash: the left column lets water through to the bottom, so the
      union-find engine reports the isolated bottom-right site FULL, joined to
      VTOP through VBOTTOM, while no path of open sites reaches it from the top
      and a flood engine with the same open sites reports it not FULL. */
  lemma Backwash(fs: F.State, us: U.State)
    requires F.Inv(fs) && U.Inv(us) && us.n == 3 && fs.grid.n == 3
    requires us.grid == BackwashSites() && OpenMask(fs.grid) == us.grid
    ensures U.Percolates(us)
    ensures !ReachTop(3, us.grid, Pos(2, 2))
    ensures U.IsFull(us, 2, 2) == Success(true)
    ensures F.IsFull(fs, 2, 2) == Success(false)
  {
    BackwashPaths();
    BackwashJoined(us);
  }

  /** The sites opened by the calls open(0, 0), open(1, 0), open(2, 0), open(2, 2). */
  function BackwashCalls(): seq<Pos> {
    [Pos(0, 0), Pos(1, 0), Pos(2, 0), Pos(2, 2)]
  }

  /** One cell of the mask those calls leave open. */
  lemma BackwashCell(g: seq<bool>, i: int)
    requires |g| == 9 && 0 <= i < 9
    requires forall q :: InBounds(3, q) ==> (g[Index(3, q)] <==> q in BackwashCalls())
    ensures g[i] == BackwashSites()[i]
  {
    IndexOfPosOf(3, i);
    var q := PosOf(3, i);
    assert g[i] <==> q in BackwashCalls();
    if i == 0 { assert q == Pos(0, 0); }
    else if i == 3 { assert q == Pos(1, 0); }
    else if i == 6 { assert q == Pos(2, 0); }
    else if i == 8 { assert q == Pos(2, 2); }
  }

  /** Those calls leave exactly the backwash picture open. */
  lemma BackwashOpened(g: seq<bool>)
    requires |g| == 9
    requires forall q :: InBounds(3, q) ==> (g[Index(3, q)] <==> q in BackwashCalls())
    ensures g == BackwashSites()
  {
    forall i | 0 <= i < 9
      ensures g[i] == BackwashSites()[i]
    {
      BackwashCell(g, i);
    }
  }

  /** Backwash reached by real calls: after opening the left column and the
      bottom-right site of a 3-by-3 grid, both engines say the system
      percolates, the union-find engine reports (2, 2) full and the flood
      engine of kind e reports it not full. */
  method BackwashRun(e: F.Engine) returns (floodPercolates: bool, unionFull: Result<bool>, floodFull: Result<bool>)
    ensures floodPercolates
    ensures unionFull == Success(true) && floodFull == Success(false)
  {
    var fs, us := Run(e, 3, BackwashCalls());
    BackwashOpened(us.grid);
    Backwash(fs, us);
    floodPercolates := F.Percolates(fs);
    unionFull := U.IsFull(us, 2, 2);
    floodFull := F.IsFull(fs, 2, 2);
  }

  /** Once VTOP and VBOTTOM are joined, the open bottom-right site, linked to
      VBOTTOM, is joined to VTOP too. */
  lemma BackwashJoined(us: U.State)
    requires U.Inv(us) && us.n == 3 && us.grid == BackwashSites() && U.Percolates(us)
    ensures U.IsFull(us, 2, 2) == Success(true)
  {
    var E := Augmented.Edges(3, us.grid);
    Augmented.EdgesMember(3, us.grid, 8, Augmented.VBottom(3));
    assert Index(3, Pos(2, 2)) == 8;
    QuickFind.JoinedSelf(E, 8);
    QuickFind.JoinedStep(E, 8, 8, Augmented.VBottom(3));
    assert QuickFind.Connected(us.finder, 8, Augmented.VBottom(3));
  }
}
