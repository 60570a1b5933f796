/** The open sites of the backwash example, on a 3-by-3 grid with flat indices
    0 1 2 / 3 4 5 / 6 7 8, and the two facts about them that only involve
    paths: the system percolates, and the bottom-right site is not reachable
    from the top. */
module BackwashGrid {
  import opened Sites
  import opened Paths

  /** The left column and the bottom-right site open. */
  function BackwashSites(): (m: seq<bool>)
    ensures |m| == 9
  {
    [true, false, false,
     true, false, false,
     true, false, true]
  }

  /** A column open from top to bottom lets water through: the system
      percolates. */
  lemma {:induction false} OpenColumnPercolates(n: nat, mask: seq<bool>, c: int)
    requires n > 0 && |mask| == n * n && 0 <= c < n
    requires forall r :: 0 <= r < n ==> mask[Index(n, Pos(r, c))]
    ensures Percolation(n, mask)
  {
    ConnectsSelf(n, mask, Pos(0, c));
    var r := 0;
    while r < n - 1
      invariant 0 <= r < n
      invariant ReachTop(n, mask, Pos(r, c))
    {
      assert Passable(n, mask, Pos(r + 1, c));
      ReachTopStep(n, mask, Pos(r, c), Pos(r + 1, c));
      r := r + 1;
    }
    assert BottomReached(n, mask, c);
  }

  /** With nothing open outside the left column but the bottom-right site, the
      left column is closed under steps through open sites, so the bottom-right
      site is not reachable from the top. */
  lemma ColumnSealsCorner(m: seq<bool>)
    requires |m| == 9 && forall i :: 0 <= i < 9 && m[i] ==> i % 3 == 0 || i == 8
    ensures !ReachTop(3, m, Pos(2, 2))
  {
    var left := seq(9, i => i % 3 == 0);
    forall p: Pos | Passable(3, left, p)
      ensures p.col == 0
    {
      assert Index(3, p) == p.row * 3 + p.col;
    }
    forall r: Pos | Passable(3, m, r)
      ensures r.col == 0 || r == Pos(2, 2)
    {
      assert Index(3, r) == r.row * 3 + r.col;
    }
    forall p: Pos, r: Pos | Passable(3, left, p) && Passable(3, m, r) && Adjacent(p, r)
      ensures Passable(3, left, r)
    {
      assert r.col == 0;
      assert Index(3, r) == r.row * 3;
    }
    if ReachTop(3, m, Pos(2, 2)) {
      ClosedContainsReachTop(3, m, left, Pos(2, 2));
    }
  }

  /** The example grid percolates and leaves its bottom-right site unreached. */
  lemma BackwashPaths()
    ensures Percolation(3, BackwashSites())
    ensures !ReachTop(3, BackwashSites(), Pos(2, 2))
  {
    var m := BackwashSites();
    assert forall i :: 0 <= i < 9 && m[i] ==> i % 3 == 0 || i == 8;
    forall r | 0 <= r < 3
      ensures m[Index(3, Pos(r, 0))]
    {
      assert Index(3, Pos(r, 0)) == r * 3;
    }
    OpenColumnPercolates(3, m, 0);
    ColumnSealsCorner(m);
  }
}
