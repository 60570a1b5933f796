/** The queue-based flood of PercolationBFS.dfs. Sites travel through a FIFO
    queue as flat indices row * n + col and are decoded with / n and % n. */
module BreadthFirst {
  import opened Sites
  import opened Paths
  import opened Counting
  import opened FloodGrid
  import opened DepthFirst

  /** The loop invariant of the breadth-first flood from s: s is FULL, the queue
      holds the flat indices of marked sites, every marked site that is neither
      queued nor exempt is settled, and every marked site is connected to s
      through sites that were OPEN in g. */
  ghost predicate Visiting(g: Grid, s: Pos, h: Grid, queue: seq<int>, exempt: set<Pos>) {
    && WellFormed(g) && InBounds(g.n, s) && WellFormed(h) && Grows(g, h) && At(h, s) == Full
    && (forall k :: 0 <= k < |queue| ==> 0 <= queue[k] < g.n * g.n && Newly(g, h, PosOf(g.n, queue[k])))
    && (forall q :: Newly(g, h, q) && Index(g.n, q) !in queue && q !in exempt ==> Settled(h, q))
    && (forall q :: Newly(g, h, q) ==> Connects(g.n, UnfilledMask(g), s, q))
  }

  lemma VisitStart(g: Grid, s: Pos)
    requires WellFormed(g) && InBounds(g.n, s) && At(g, s) == Open
    ensures Visiting(g, s, Set(g, s, Full), [Index(g.n, s)], {})
  {
    PartialStart(g, s);
    DecodeIndex(g.n, s);
  }

  /** Popping the head of the queue exempts the decoded site until its
      neighbours have been visited. */
  lemma VisitPop(g: Grid, s: Pos, h: Grid, queue: seq<int>)
    requires Visiting(g, s, h, queue, {}) && |queue| > 0
    ensures InBounds(g.n, PosOf(g.n, queue[0])) && Index(g.n, PosOf(g.n, queue[0])) == queue[0]
    ensures Newly(g, h, PosOf(g.n, queue[0]))
    ensures Visiting(g, s, h, queue[1..], {PosOf(g.n, queue[0])})
  {
    IndexOfPosOf(g.n, queue[0]);
    var c := PosOf(g.n, queue[0]);
    forall q | Newly(g, h, q) && Index(g.n, q) !in queue[1..] && q != c
      ensures Settled(h, q)
    {
      IndexInjective(g.n, q, c);
      assert Index(g.n, q) !in queue;
    }
  }

  /** Marking the OPEN neighbour nb of the exempt site c and enqueueing it. */
  lemma VisitMark(g: Grid, s: Pos, h: Grid, queue: seq<int>, c: Pos, nb: Pos)
    requires Visiting(g, s, h, queue, {c}) && Newly(g, h, c)
    requires InBounds(g.n, nb) && Adjacent(c, nb) && At(h, nb) == Open
    ensures Visiting(g, s, Set(h, nb, Full), queue + [Index(g.n, nb)], {c})
    ensures Newly(g, Set(h, nb, Full), c)
    ensures CountTrue(UnfilledMask(Set(h, nb, Full))) == CountTrue(UnfilledMask(h)) - 1
  {
    var n := g.n;
    var h' := Set(h, nb, Full);
    MarkLowersUnfilled(h, nb);
    GrowsTransitive(g, h, h');
    forall q | Newly(g, h', q) && q != nb
      ensures Newly(g, h, q)
    {
    }
    forall q | Newly(g, h, q) && Settled(h, q)
      ensures Settled(h', q)
    {
      SettledGrows(h, h', q);
    }
    GrowsMasks(g, h);
    assert Passable(n, UnfilledMask(g), nb);
    ConnectsStep(n, UnfilledMask(g), s, c, nb);
    DecodeIndex(n, nb);
  }

  /** Once no neighbour of the exempt site is OPEN, it is settled too. */
  lemma VisitDone(g: Grid, s: Pos, h: Grid, queue: seq<int>, c: Pos)
    requires Visiting(g, s, h, queue, {c})
    requires InBounds(g.n, c)
    requires forall k :: 0 <= k < 4 && InBounds(g.n, Neighbour(c, k)) ==> At(h, Neighbour(c, k)) != Open
    ensures Visiting(g, s, h, queue, {})
  {
    forall r | InBounds(h.n, r) && Adjacent(c, r)
      ensures At(h, r) != Open
    {
      NeighbourIsAdjacent(c, r);
    }
    assert Settled(h, c);
  }

  /** The inner loop over the four offsets: every in-bounds neighbour of c that
      is open and not FULL is marked and enqueued, so none is left OPEN. */
  method VisitNeighbours(g: Grid, s: Pos, h: Grid, queue: seq<int>, c: Pos) returns (h': Grid, queue': seq<int>)
    requires Visiting(g, s, h, queue, {c}) && Newly(g, h, c)
    ensures Visiting(g, s, h', queue', {})
    ensures forall k :: 0 <= k < 4 && InBounds(g.n, Neighbour(c, k)) ==> At(h', Neighbour(c, k)) != Open
    ensures CountTrue(UnfilledMask(h')) < CountTrue(UnfilledMask(h)) || (h' == h && queue' == queue)
  {
    var n := g.n;
    h', queue' := h, queue;
    var i := 0;
    while i < 4
      invariant 0 <= i <= 4
      invariant Visiting(g, s, h', queue', {c}) && Newly(g, h', c)
      invariant forall k :: 0 <= k < i && InBounds(n, Neighbour(c, k)) ==> At(h', Neighbour(c, k)) != Open
      invariant CountTrue(UnfilledMask(h')) < CountTrue(UnfilledMask(h)) || (h' == h && queue' == queue)
    {
      var nb := Neighbour(c, i);
      if InBounds(n, nb) && At(h', nb) != Blocked && At(h', nb) != Full {
        VisitMark(g, s, h', queue', c, nb);
        ghost var prev := h';
        h' := Set(h', nb, Full);
        queue' := queue' + [Index(n, nb)];
        forall k | 0 <= k < i && InBounds(n, Neighbour(c, k))
          ensures At(h', Neighbour(c, k)) != Open
        {
          assert At(prev, Neighbour(c, k)) != Open;
        }
      }
      i := i + 1;
    }
    VisitDone(g, s, h', queue', c);
  }

  /** PercolationBFS.dfs. The start site is marked FULL unconditionally, so the
      caller must pass an in-bounds OPEN site, which the incremental engine does.
      Every site is enqueued at most once: only a site moving from OPEN to FULL
      is enqueued, which bounds the loop by the number of OPEN sites. */
  method Bfs(g: Grid, s: Pos) returns (h: Grid)
    requires WellFormed(g) && InBounds(g.n, s) && At(g, s) == Open
    ensures Flooded(g, s, h)
    ensures h == Dfs(g, s)
  {
    var n := g.n;
    VisitStart(g, s);
    h := Set(g, s, Full);
    var queue: seq<int> := [Index(n, s)];
    while |queue| > 0
      invariant Visiting(g, s, h, queue, {})
      decreases CountTrue(UnfilledMask(h)), |queue|
    {
      var current := queue[0];
      VisitPop(g, s, h, queue);
      queue := queue[1..];
      var c := PosOf(n, current);
      h, queue := VisitNeighbours(g, s, h, queue, c);
    }
    FloodedUnique(g, s, h, Dfs(g, s));
  }
}
