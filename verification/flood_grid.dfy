/** The grid shared by the flood-fill engines: one BLOCKED/OPEN/FULL state per
    site, and the relation "flooded" that every flood from one start site must
    establish, whatever its traversal order. */
module FloodGrid {
  import opened Sites
  import opened Paths
  import opened Counting

  /** BLOCKED, OPEN and FULL of the percolation interface. */
  datatype Cell = Blocked | Open | Full

  /** The n-by-n grid, stored row after row at the flat index row * n + col. */
  datatype Grid = Grid(n: nat, cells: seq<Cell>)

  predicate WellFormed(g: Grid) {
    |g.cells| == g.n * g.n
  }

  function At(g: Grid, p: Pos): Cell
    requires WellFormed(g) && InBounds(g.n, p)
  {
    g.cells[Index(g.n, p)]
  }

  /** myGrid[row][col] = v: one site changes, every other site keeps its state. */
  function Set(g: Grid, p: Pos, v: Cell): (g': Grid)
    requires WellFormed(g) && InBounds(g.n, p)
    ensures WellFormed(g') && g'.n == g.n
    ensures At(g', p) == v
    ensures forall q :: InBounds(g.n, q) && q != p ==> At(g', q) == At(g, q)
  {
    IndexInjectiveAll(g.n);
    Grid(g.n, g.cells[Index(g.n, p) := v])
  }

  /** Sites for which isOpen answers true: every site that is not BLOCKED. */
  function OpenMask(g: Grid): seq<bool> {
    seq(|g.cells|, i requires 0 <= i < |g.cells| => g.cells[i] != Blocked)
  }

  /** Sites a flood may still enter: open but not yet FULL. */
  function UnfilledMask(g: Grid): seq<bool> {
    seq(|g.cells|, i requires 0 <= i < |g.cells| => g.cells[i] == Open)
  }

  /** h differs from g only by OPEN sites that became FULL. */
  predicate Grows(g: Grid, h: Grid) {
    && h.n == g.n
    && |h.cells| == |g.cells|
    && forall i :: 0 <= i < |g.cells| ==> h.cells[i] == g.cells[i] || (g.cells[i] == Open && h.cells[i] == Full)
  }

  /** q was OPEN in g and is FULL in h. */
  predicate Newly(g: Grid, h: Grid, q: Pos) {
    WellFormed(g) && WellFormed(h) && g.n == h.n && InBounds(g.n, q) && At(g, q) == Open && At(h, q) == Full
  }

  /** No neighbour of q is left OPEN in h. */
  ghost predicate Settled(h: Grid, q: Pos) {
    WellFormed(h) && forall r :: InBounds(h.n, r) && Adjacent(q, r) ==> At(h, r) != Open
  }

  /** h is the outcome of a flood from s on g: only OPEN sites became FULL; s is
      FULL if it was OPEN and otherwise nothing changed; no site marked by the
      flood has an OPEN neighbour left; and every site it marked is connected to s
      through sites that were OPEN in g. */
  ghost predicate Flooded(g: Grid, s: Pos, h: Grid) {
    && WellFormed(g) && WellFormed(h) && Grows(g, h)
    && (if InBounds(g.n, s) && At(g, s) == Open then At(h, s) == Full else h == g)
    && (forall q :: Newly(g, h, q) ==> Settled(h, q))
    && (forall q :: Newly(g, h, q) ==> Connects(g.n, UnfilledMask(g), s, q))
  }

  /** Two grids that block the same sites have the same open mask. */
  lemma OpenMaskFromSites(g: Grid, h: Grid)
    requires WellFormed(g) && WellFormed(h) && h.n == g.n
    requires forall q :: InBounds(g.n, q) ==> (At(h, q) == Blocked <==> At(g, q) == Blocked)
    ensures OpenMask(h) == OpenMask(g)
  {
    forall i | 0 <= i < |g.cells|
      ensures OpenMask(h)[i] == OpenMask(g)[i]
    {
      IndexOfPosOf(g.n, i);
      assert InBounds(g.n, PosOf(g.n, i));
    }
  }

  lemma GrowsTransitive(g: Grid, h: Grid, k: Grid)
    requires Grows(g, h) && Grows(h, k)
    ensures Grows(g, k)
  {
  }

  /** A flood never opens or closes a site, and leaves fewer sites to fill. */
  lemma GrowsMasks(g: Grid, h: Grid)
    requires Grows(g, h)
    ensures OpenMask(h) == OpenMask(g)
    ensures Within(UnfilledMask(h), UnfilledMask(g))
    ensures CountTrue(UnfilledMask(h)) <= CountTrue(UnfilledMask(g))
  {
    CountMonotone(UnfilledMask(h), UnfilledMask(g));
  }

  /** Marking an OPEN site FULL leaves one site fewer to fill. */
  lemma MarkLowersUnfilled(g: Grid, p: Pos)
    requires WellFormed(g) && InBounds(g.n, p) && At(g, p) == Open
    ensures Grows(g, Set(g, p, Full))
    ensures CountTrue(UnfilledMask(Set(g, p, Full))) == CountTrue(UnfilledMask(g)) - 1
  {
    var i := Index(g.n, p);
    assert UnfilledMask(Set(g, p, Full)) == UnfilledMask(g)[i := false];
    CountUpdate(UnfilledMask(g), i, false);
  }

  /** A site that is not OPEN keeps its state under a flood. */
  lemma GrowsKeeps(g: Grid, h: Grid, q: Pos)
    requires WellFormed(g) && Grows(g, h) && InBounds(g.n, q) && At(g, q) != Open
    ensures WellFormed(h) && At(h, q) == At(g, q)
  {
    assert h.cells[Index(g.n, q)] == g.cells[Index(g.n, q)];
  }

  /** Settledness survives a later flood: a non-OPEN site never becomes OPEN. */
  lemma SettledGrows(g: Grid, h: Grid, q: Pos)
    requires Settled(g, q) && Grows(g, h)
    ensures Settled(h, q)
  {
    forall r | InBounds(h.n, r) && Adjacent(q, r)
      ensures At(h, r) != Open
    {
      GrowsKeeps(g, h, r);
    }
  }

  /** Completeness of a flood: every site connected to the start through OPEN
      sites ends up FULL. */
  lemma FloodedComplete(g: Grid, s: Pos, h: Grid, q: Pos)
    requires Flooded(g, s, h) && InBounds(g.n, s) && At(g, s) == Open
    requires Connects(g.n, UnfilledMask(g), s, q)
    ensures InBounds(g.n, q) && At(h, q) == Full
  {
    var n := g.n;
    var mask := UnfilledMask(g);
    var marked := seq(|g.cells|, i requires 0 <= i < |g.cells| => g.cells[i] == Open && h.cells[i] == Full);
    forall p: Pos, r: Pos | Passable(n, marked, p) && Passable(n, mask, r) && Adjacent(p, r)
      ensures Passable(n, marked, r)
    {
      assert Newly(g, h, p);
      assert Settled(h, p);
      assert h.cells[Index(n, r)] == g.cells[Index(n, r)] || h.cells[Index(n, r)] == Full;
    }
    assert Passable(n, marked, s);
    ClosedContainsConnected(n, mask, marked, s, q);
  }

  /** A flood's outcome is determined by its start and the grid: any two
      traversals establishing Flooded agree site by site. */
  lemma FloodedUnique(g: Grid, s: Pos, h1: Grid, h2: Grid)
    requires Flooded(g, s, h1) && Flooded(g, s, h2)
    ensures h1 == h2
  {
    if InBounds(g.n, s) && At(g, s) == Open {
      var n := g.n;
      forall i | 0 <= i < |g.cells|
        ensures h1.cells[i] == h2.cells[i]
      {
        IndexOfPosOf(n, i);
        var q := PosOf(n, i);
        if g.cells[i] == Open && h1.cells[i] == Full {
          assert Newly(g, h1, q);
          FloodedComplete(g, s, h2, q);
        } else if g.cells[i] == Open && h2.cells[i] == Full {
          assert Newly(g, h2, q);
          FloodedComplete(g, s, h1, q);
        }
      }
      assert h1.cells == h2.cells;
    }
  }
}
