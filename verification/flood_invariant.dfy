/** The invariant every flood-fill engine keeps between calls: a site is FULL
    exactly when it is open and reachable from an open top-row site through open
    sites. It is proved in three local parts (closed, top settled, sound), which
    is how the incremental update is shown to preserve it. */
module FloodInvariant {
  import opened Sites
  import opened Paths
  import opened Counting
  import opened FloodGrid

  /** The property the engines promise: FULL means reachable from the top. */
  ghost predicate FullIsReach(g: Grid) {
    WellFormed(g) && forall q :: InBounds(g.n, q) ==> (At(g, q) == Full <==> ReachTop(g.n, OpenMask(g), q))
  }

  /** No FULL site has an OPEN neighbour. */
  ghost predicate Closed(g: Grid) {
    WellFormed(g) && forall q :: InBounds(g.n, q) && At(g, q) == Full ==> Settled(g, q)
  }

  /** No FULL site has an OPEN neighbour other than s. */
  ghost predicate ClosedExcept(g: Grid, s: Pos) {
    WellFormed(g) &&
    forall q, r :: InBounds(g.n, q) && At(g, q) == Full && InBounds(g.n, r) && Adjacent(q, r) && r != s ==> At(g, r) != Open
  }

  /** No top-row site is left OPEN. */
  ghost predicate TopSettled(g: Grid) {
    WellFormed(g) && forall c :: 0 <= c < g.n ==> At(g, Pos(0, c)) != Open
  }

  /** Every FULL site is reachable from the top. */
  ghost predicate Sound(g: Grid) {
    WellFormed(g) && forall q :: InBounds(g.n, q) && At(g, q) == Full ==> ReachTop(g.n, OpenMask(g), q)
  }

  /** The grid that the sites open in mask ought to produce: BLOCKED where the
      mask is false, FULL where the site is reachable from the top, OPEN elsewhere. */
  ghost function Reference(n: nat, mask: seq<bool>): Grid
    requires n > 0 && |mask| == n * n
  {
    Grid(n, seq(n * n, i requires 0 <= i < n * n =>
      if !mask[i] then Blocked else if ReachTop(n, mask, PosOf(n, i)) then Full else Open))
  }

  /** Both directions: the invariant holds exactly when the grid is closed, its
      top row is settled and its FULL sites are sound. */
  lemma CharacteriseFull(g: Grid)
    requires WellFormed(g)
    ensures FullIsReach(g) <==> Closed(g) && TopSettled(g) && Sound(g)
  {
    if FullIsReach(g) {
      FullIsReachSettles(g);
    }
    if Closed(g) && TopSettled(g) && Sound(g) {
      SettledIsComplete(g);
    }
  }

  /** FULL meaning reachable from the top leaves no OPEN site next to a FULL one
      and none in the top row. */
  lemma FullIsReachSettles(g: Grid)
    requires FullIsReach(g)
    ensures Closed(g) && TopSettled(g)
  {
    var n := g.n;
    var mask := OpenMask(g);
    forall q | InBounds(n, q) && At(g, q) == Full
      ensures Settled(g, q)
    {
      forall r | InBounds(n, r) && Adjacent(q, r)
        ensures At(g, r) != Open
      {
        if At(g, r) == Open {
          ReachTopStep(n, mask, q, r);
        }
      }
    }
    forall c | 0 <= c < n
      ensures At(g, Pos(0, c)) != Open
    {
      if At(g, Pos(0, c)) == Open {
        ConnectsSelf(n, mask, Pos(0, c));
      }
    }
  }

  /** A closed, top-settled grid has FULL on every site reachable from the top:
      the FULL sites form a closed set holding every open top-row site. */
  lemma SettledIsComplete(g: Grid)
    requires Closed(g) && TopSettled(g) && Sound(g)
    ensures FullIsReach(g)
  {
    var n := g.n;
    var mask := OpenMask(g);
    var marked := seq(|g.cells|, i requires 0 <= i < |g.cells| => g.cells[i] == Full);
    forall p: Pos, r: Pos | Passable(n, marked, p) && Passable(n, mask, r) && Adjacent(p, r)
      ensures Passable(n, marked, r)
    {
      assert Settled(g, p);
    }
    forall q | InBounds(n, q) && ReachTop(n, mask, q)
      ensures At(g, q) == Full
    {
      ClosedContainsReachTop(n, mask, marked, q);
    }
  }

  /** The invariant pins the grid down completely: it is the reference grid of
      its own open sites. Hence engines that open the same sites agree. */
  lemma FullIsReachReference(g: Grid)
    requires FullIsReach(g) && g.n > 0
    ensures g == Reference(g.n, OpenMask(g))
  {
    var n := g.n;
    var ref := Reference(n, OpenMask(g));
    forall i | 0 <= i < |g.cells|
      ensures g.cells[i] == ref.cells[i]
    {
      IndexOfPosOf(n, i);
      assert InBounds(n, PosOf(n, i));
    }
    assert g.cells == ref.cells;
  }

  /** A flood from s keeps the grid closed and sound, provided s is the only
      possible OPEN neighbour of a FULL site and s is reachable from the top if
      it is OPEN. */
  lemma FloodRestores(h: Grid, s: Pos, h': Grid)
    requires ClosedExcept(h, s) && Sound(h) && Flooded(h, s, h')
    requires InBounds(h.n, s) && At(h, s) == Open ==> ReachTop(h.n, OpenMask(h), s)
    ensures Closed(h') && Sound(h') && OpenMask(h') == OpenMask(h)
    ensures forall q :: InBounds(h.n, q) && At(h, q) != Open ==> At(h', q) != Open
    ensures InBounds(h.n, s) ==> At(h', s) != Open
  {
    var n := h.n;
    GrowsMasks(h, h');
    forall q | InBounds(n, q) && At(h, q) != Open
      ensures At(h', q) != Open
    {
      GrowsKeeps(h, h', q);
    }
    forall q | InBounds(n, q) && At(h', q) == Full
      ensures Settled(h', q)
    {
      if At(h, q) == Full {
        forall r | InBounds(n, r) && Adjacent(q, r)
          ensures At(h', r) != Open
        {
          if r != s {
            GrowsKeeps(h, h', r);
          }
        }
      } else {
        assert Newly(h, h', q);
      }
    }
    forall q | InBounds(n, q) && At(h', q) == Full
      ensures ReachTop(n, OpenMask(h'), q)
    {
      if At(h, q) != Full {
        assert Newly(h, h', q);
        ConnectsEnds(n, UnfilledMask(h), s, q);
        assert Within(UnfilledMask(h), OpenMask(h));
        ConnectsWithin(n, UnfilledMask(h), OpenMask(h), s, q);
        ReachTopThenConnects(n, OpenMask(h), s, s, q);
      }
    }
  }

  /** Opening a BLOCKED site of a grid that keeps the invariant: the FULL sites
      are still sound, the new site is the only possible OPEN neighbour of a
      FULL site, it is the only top-row site that may be OPEN, and exactly one
      more site is open. */
  lemma OpenedGrid(g0: Grid, p: Pos)
    requires FullIsReach(g0) && InBounds(g0.n, p) && At(g0, p) == Blocked
    ensures ClosedExcept(Set(g0, p, Open), p) && Sound(Set(g0, p, Open))
    ensures forall c :: 0 <= c < g0.n && Pos(0, c) != p ==> At(Set(g0, p, Open), Pos(0, c)) != Open
    ensures OpenMask(Set(g0, p, Open)) == OpenMask(g0)[Index(g0.n, p) := true]
    ensures CountTrue(OpenMask(Set(g0, p, Open))) == CountTrue(OpenMask(g0)) + 1
  {
    var n := g0.n;
    var g := Set(g0, p, Open);
    CharacteriseFull(g0);
    assert OpenMask(g) == OpenMask(g0)[Index(n, p) := true];
    CountUpdate(OpenMask(g0), Index(n, p), true);
    assert Within(OpenMask(g0), OpenMask(g));
    forall q | InBounds(n, q) && At(g, q) == Full
      ensures ReachTop(n, OpenMask(g), q)
    {
      ReachTopWithin(n, OpenMask(g0), OpenMask(g), q);
    }
    forall q, r | InBounds(n, q) && At(g, q) == Full && InBounds(n, r) && Adjacent(q, r) && r != p
      ensures At(g, r) != Open
    {
      assert Settled(g0, q);
    }
  }

  /** An open site in the top row, or next to a FULL site of a sound grid, is
      reachable from the top. */
  lemma StartReachesTop(g: Grid, p: Pos)
    requires Sound(g) && InBounds(g.n, p) && At(g, p) != Blocked
    requires p.row == 0 || exists k :: 0 <= k < 4 && FullNeighbour(g, p, k)
    ensures ReachTop(g.n, OpenMask(g), p)
  {
    var n := g.n;
    assert Passable(n, OpenMask(g), p);
    if p.row == 0 {
      ConnectsSelf(n, OpenMask(g), p);
    } else {
      var k :| 0 <= k < 4 && FullNeighbour(g, p, k);
      var t := Neighbour(p, k);
      assert ReachTop(n, OpenMask(g), t);
      assert Adjacent(t, p);
      ReachTopStep(n, OpenMask(g), t, p);
    }
  }

  /** The k-th neighbour of p is in bounds and FULL. */
  predicate FullNeighbour(g: Grid, p: Pos, k: int)
    requires WellFormed(g) && 0 <= k < 4
  {
    InBounds(g.n, Neighbour(p, k)) && At(g, Neighbour(p, k)) == Full
  }

  /** The incremental update when it floods: the new site is in the top row or
      has a FULL neighbour, and the flood from it restores the invariant. */
  lemma FastFloodRestores(g0: Grid, p: Pos, g: Grid, h: Grid)
    requires FullIsReach(g0) && InBounds(g0.n, p) && At(g0, p) == Blocked && g == Set(g0, p, Open)
    requires p.row == 0 || exists k :: 0 <= k < 4 && FullNeighbour(g, p, k)
    requires Flooded(g, p, h)
    ensures FullIsReach(h) && OpenMask(h) == OpenMask(g) && Grows(g, h)
  {
    var n := g0.n;
    OpenedGrid(g0, p);
    StartReachesTop(g, p);
    FloodRestores(g, p, h);
    assert TopSettled(h) by {
      forall c | 0 <= c < n
        ensures At(h, Pos(0, c)) != Open
      {
        if Pos(0, c) != p {
          assert At(g, Pos(0, c)) != Open;
        }
      }
    }
    CharacteriseFull(h);
  }

  /** The incremental update when it does nothing: the new site is below the top
      row with no FULL neighbour, and the invariant already holds. */
  lemma FastSkipKeeps(g0: Grid, p: Pos, g: Grid)
    requires FullIsReach(g0) && InBounds(g0.n, p) && At(g0, p) == Blocked && g == Set(g0, p, Open)
    requires p.row != 0
    requires forall k :: 0 <= k < 4 ==> !FullNeighbour(g, p, k)
    ensures FullIsReach(g)
  {
    var n := g0.n;
    OpenedGrid(g0, p);
    forall q | InBounds(n, q) && At(g, q) == Full
      ensures Settled(g, q)
    {
      SkipSettled(g0, p, g, q);
    }
    assert TopSettled(g) by {
      forall c | 0 <= c < n
        ensures At(g, Pos(0, c)) != Open
      {
        assert Pos(0, c) != p;
      }
    }
    CharacteriseFull(g);
  }

  /** A FULL site is not next to the new site, which has no FULL neighbour, so
      it stays settled. */
  lemma SkipSettled(g0: Grid, p: Pos, g: Grid, q: Pos)
    requires FullIsReach(g0) && InBounds(g0.n, p) && At(g0, p) == Blocked && g == Set(g0, p, Open)
    requires forall k :: 0 <= k < 4 ==> !FullNeighbour(g, p, k)
    requires InBounds(g.n, q) && At(g, q) == Full
    ensures Settled(g, q)
  {
    var n := g0.n;
    OpenedGrid(g0, p);
    forall k | 0 <= k < 4
      ensures Neighbour(p, k) != q
    {
      assert !FullNeighbour(g, p, k);
    }
    NeighbourIsAdjacent(p, q);
    assert !Adjacent(p, q);
    forall r | InBounds(n, r) && Adjacent(q, r)
      ensures At(g, r) != Open
    {
      assert r != p;
    }
  }
}
