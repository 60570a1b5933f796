/** The recursive flood of PercolationDFS.dfs: mark an OPEN site FULL, then
    flood from the sites above, left, right and below it, in that order. */
module DepthFirst {
  import opened Sites
  import opened Paths
  import opened Counting
  import opened FloodGrid

  /** A flood from s in progress: s is FULL, every marked site other than s is
      settled, and every marked site is connected to s through sites OPEN in g. */
  ghost predicate Partial(g: Grid, s: Pos, h: Grid) {
    && WellFormed(g) && WellFormed(h) && Grows(g, h)
    && InBounds(g.n, s) && At(g, s) == Open && At(h, s) == Full
    && (forall q :: Newly(g, h, q) && q != s ==> Settled(h, q))
    && (forall q :: Newly(g, h, q) ==> Connects(g.n, UnfilledMask(g), s, q))
  }

  lemma PartialStart(g: Grid, s: Pos)
    requires WellFormed(g) && InBounds(g.n, s) && At(g, s) == Open
    ensures Partial(g, s, Set(g, s, Full))
  {
    var h := Set(g, s, Full);
    MarkLowersUnfilled(g, s);
    assert Passable(g.n, UnfilledMask(g), s);
    ConnectsSelf(g.n, UnfilledMask(g), s);
    forall q | Newly(g, h, q)
      ensures q == s
    {
    }
  }

  /** A flood from a neighbour t of s, run on a partial flood from s, extends it. */
  lemma PartialExtend(g: Grid, s: Pos, h: Grid, t: Pos, h': Grid)
    requires Partial(g, s, h) && Adjacent(s, t) && Flooded(h, t, h')
    ensures Partial(g, s, h')
    ensures InBounds(g.n, t) ==> At(h', t) != Open
    ensures forall r :: InBounds(g.n, r) && At(h, r) != Open ==> At(h', r) != Open
  {
    var n := g.n;
    GrowsTransitive(g, h, h');
    GrowsMasks(h, h');
    forall r | InBounds(n, r) && At(h, r) != Open
      ensures At(h', r) != Open
    {
      GrowsKeeps(h, h', r);
    }
    forall q | Newly(g, h', q) && q != s
      ensures Settled(h', q)
    {
      if At(h, q) == Full {
        SettledGrows(h, h', q);
      } else {
        assert Newly(h, h', q);
      }
    }
    GrowsMasks(g, h);
    forall q | Newly(g, h', q)
      ensures Connects(n, UnfilledMask(g), s, q)
    {
      if At(h, q) != Full {
        assert Newly(h, h', q);
        ConnectsWithin(n, UnfilledMask(h), UnfilledMask(g), t, q);
        assert Passable(n, UnfilledMask(g), s);
        ConnectsPrepend(n, UnfilledMask(g), s, t, q);
      }
    }
  }

  /** Once no neighbour of s is OPEN, the partial flood is complete. */
  lemma PartialFinish(g: Grid, s: Pos, h: Grid)
    requires Partial(g, s, h)
    requires forall k :: 0 <= k < 4 && InBounds(g.n, Neighbour(s, k)) ==> At(h, Neighbour(s, k)) != Open
    ensures Flooded(g, s, h)
  {
    forall r | InBounds(h.n, r) && Adjacent(s, r)
      ensures At(h, r) != Open
    {
      NeighbourIsAdjacent(s, r);
    }
    assert Settled(h, s);
  }

  /** PercolationDFS.dfs. Sites out of bounds, BLOCKED or already FULL end the
      recursion; the recursion depth is bounded by the number of sites still
      OPEN, which each marking lowers. */
  function Dfs(g: Grid, p: Pos): (h: Grid)
    requires WellFormed(g)
    ensures Flooded(g, p, h)
    decreases CountTrue(UnfilledMask(g))
  {
    if !InBounds(g.n, p) || At(g, p) != Open then g
    else
      var g1 := Set(g, p, Full);
      MarkLowersUnfilled(g, p);
      PartialStart(g, p);
      var g2 := Dfs(g1, Neighbour(p, 0));
      PartialExtend(g, p, g1, Neighbour(p, 0), g2);
      GrowsMasks(g1, g2);
      var g3 := Dfs(g2, Neighbour(p, 3));
      PartialExtend(g, p, g2, Neighbour(p, 3), g3);
      GrowsMasks(g2, g3);
      var g4 := Dfs(g3, Neighbour(p, 2));
      PartialExtend(g, p, g3, Neighbour(p, 2), g4);
      GrowsMasks(g3, g4);
      var g5 := Dfs(g4, Neighbour(p, 1));
      PartialExtend(g, p, g4, Neighbour(p, 1), g5);
      PartialFinish(g, p, g5);
      g5
  }
}
