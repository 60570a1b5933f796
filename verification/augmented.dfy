/** The graph the union-find engine builds: the n * n sites plus the virtual
    sentinels VTOP = n * n and VBOTTOM = n * n + 1. Two open adjacent sites are
    linked, an open top-row site is linked to VTOP and an open bottom-row site to
    VBOTTOM. Joining VTOP to VBOTTOM in this graph is exactly percolation. */
module Augmented {
  import opened Sites
  import opened Paths
  import opened QuickFind

  function VTop(n: nat): int {
    n * n
  }

  function VBottom(n: nat): int {
    n * n + 1
  }

  /** The edge (a, b), always from a site a to a neighbour site or a sentinel b. */
  ghost predicate AugEdge(n: nat, open: seq<bool>, a: int, b: int) {
    && n > 0 && |open| == n * n && 0 <= a < n * n && open[a]
    && ((0 <= b < n * n && open[b] && Adjacent(PosOf(n, a), PosOf(n, b)))
        || (PosOf(n, a).row == 0 && b == VTop(n))
        || (PosOf(n, a).row == n - 1 && b == VBottom(n)))
  }

  ghost function Edges(n: nat, open: seq<bool>): set<(int, int)> {
    set a: int, b: int | 0 <= a < n * n + 2 && 0 <= b < n * n + 2 && AugEdge(n, open, a, b) :: (a, b)
  }

  lemma EdgesMember(n: nat, open: seq<bool>, a: int, b: int)
    ensures (a, b) in Edges(n, open) <==> AugEdge(n, open, a, b)
  {
    if AugEdge(n, open, a, b) {
      assert 0 <= a < n * n + 2 && 0 <= b < n * n + 2;
    }
  }

  lemma EdgesWithinUniverse(n: nat, open: seq<bool>)
    ensures EdgesWithin(Edges(n, open), n * n + 2)
  {
  }

  /** With no site open there are no edges. */
  lemma EdgesNone(n: nat)
    requires n > 0
    ensures Edges(n, seq(n * n, i => false)) == {}
  {
    var none := seq(n * n, i => false);
    forall e | e in Edges(n, none)
      ensures false
    {
      EdgesMember(n, none, e.0, e.1);
    }
  }

  /** x is VTOP or a site reachable from the top. */
  ghost predicate Good(n: nat, open: seq<bool>, x: int)
    requires n > 0
  {
    x == VTop(n) || (0 <= x < n * n && ReachTop(n, open, PosOf(n, x)))
  }

  /** One step of a walk out of VTOP stays among good nodes unless it has just
      found percolation. */
  lemma GoodStep(n: nat, open: seq<bool>, a: int, b: int)
    requires n > 0 && |open| == n * n && Good(n, open, a) && Linked(Edges(n, open), a, b)
    ensures Percolation(n, open) || Good(n, open, b)
  {
    EdgesMember(n, open, a, b);
    EdgesMember(n, open, b, a);
    if AugEdge(n, open, a, b) {
      var pa := PosOf(n, a);
      IndexOfPosOf(n, a);
      if 0 <= b < n * n && open[b] && Adjacent(pa, PosOf(n, b)) {
        IndexOfPosOf(n, b);
        assert Passable(n, open, PosOf(n, b));
        ReachTopStep(n, open, pa, PosOf(n, b));
      } else if pa.row == n - 1 && b == VBottom(n) {
        assert pa == Pos(n - 1, pa.col);
        assert BottomReached(n, open, pa.col);
      }
    } else {
      assert AugEdge(n, open, b, a);
      var pb := PosOf(n, b);
      IndexOfPosOf(n, b);
      assert Passable(n, open, pb);
      if a == VTop(n) {
        ConnectsSelf(n, open, pb);
      } else {
        ReachTopStep(n, open, PosOf(n, a), pb);
      }
    }
  }

  /** Everything joined to VTOP is VTOP or reachable from the top, unless the
      system percolates. This is the backwash: once it percolates, a site joined
      to VBOTTOM is joined to VTOP whether or not the top reaches it. */
  lemma {:induction false} JoinedFromTop(n: nat, open: seq<bool>, x: int)
    requires n > 0 && |open| == n * n && Joined(Edges(n, open), VTop(n), x)
    ensures Percolation(n, open) || Good(n, open, x)
  {
    var E := Edges(n, open);
    var w: seq<int> :| IsWalk(E, w) && w[0] == VTop(n) && w[|w| - 1] == x;
    var i := 0;
    while i < |w| - 1
      invariant 0 <= i < |w|
      invariant Percolation(n, open) || Good(n, open, w[i])
    {
      assert Linked(E, w[i], w[i + 1]);
      if !Percolation(n, open) {
        GoodStep(n, open, w[i], w[i + 1]);
      }
      i := i + 1;
    }
  }

  /** A site reachable from the top is joined to VTOP. */
  lemma {:induction false} ReachTopJoined(n: nat, open: seq<bool>, q: Pos)
    requires n > 0 && |open| == n * n && ReachTop(n, open, q)
    ensures InBounds(n, q) && Joined(Edges(n, open), VTop(n), Index(n, q))
  {
    var E := Edges(n, open);
    var path: seq<Pos> :| IsPath(n, open, path) && path[0].row == 0 && path[|path| - 1] == q;
    assert Passable(n, open, path[0]);
    DecodeIndex(n, path[0]);
    EdgesMember(n, open, Index(n, path[0]), VTop(n));
    JoinedSelf(E, VTop(n));
    JoinedStep(E, VTop(n), VTop(n), Index(n, path[0]));
    var i := 0;
    while i < |path| - 1
      invariant 0 <= i < |path|
      invariant Joined(E, VTop(n), Index(n, path[i]))
    {
      assert Passable(n, open, path[i]) && Passable(n, open, path[i + 1]);
      assert Adjacent(path[i], path[i + 1]);
      DecodeIndex(n, path[i]);
      DecodeIndex(n, path[i + 1]);
      EdgesMember(n, open, Index(n, path[i]), Index(n, path[i + 1]));
      JoinedStep(E, VTop(n), Index(n, path[i]), Index(n, path[i + 1]));
      i := i + 1;
    }
  }

  /** Both directions: VTOP and VBOTTOM are joined exactly when some bottom-row
      site is reachable from the top. */
  lemma PercolationIffJoined(n: nat, open: seq<bool>)
    requires n > 0 && |open| == n * n
    ensures Joined(Edges(n, open), VTop(n), VBottom(n)) <==> Percolation(n, open)
  {
    var E := Edges(n, open);
    if Joined(E, VTop(n), VBottom(n)) {
      JoinedFromTop(n, open, VBottom(n));
    }
    if Percolation(n, open) {
      var c :| 0 <= c < n && BottomReached(n, open, c);
      var b := Pos(n - 1, c);
      ReachTopJoined(n, open, b);
      ReachTopEnd(n, open, b);
      DecodeIndex(n, b);
      EdgesMember(n, open, Index(n, b), VBottom(n));
      JoinedStep(E, VTop(n), Index(n, b), VBottom(n));
    }
  }

  /** A site reachable from the bottom is joined to VBOTTOM. */
  lemma {:induction false} ReachBottomJoined(n: nat, open: seq<bool>, q: Pos)
    requires n > 0 && |open| == n * n && ReachBottom(n, open, q)
    ensures InBounds(n, q) && Joined(Edges(n, open), VBottom(n), Index(n, q))
  {
    var E := Edges(n, open);
    var path: seq<Pos> :| IsPath(n, open, path) && path[0].row == n - 1 && path[|path| - 1] == q;
    assert Passable(n, open, path[0]);
    DecodeIndex(n, path[0]);
    EdgesMember(n, open, Index(n, path[0]), VBottom(n));
    JoinedSelf(E, VBottom(n));
    JoinedStep(E, VBottom(n), VBottom(n), Index(n, path[0]));
    var i := 0;
    while i < |path| - 1
      invariant 0 <= i < |path|
      invariant Joined(E, VBottom(n), Index(n, path[i]))
    {
      assert Passable(n, open, path[i]) && Passable(n, open, path[i + 1]);
      assert Adjacent(path[i], path[i + 1]);
      DecodeIndex(n, path[i]);
      DecodeIndex(n, path[i + 1]);
      EdgesMember(n, open, Index(n, path[i]), Index(n, path[i + 1]));
      JoinedStep(E, VBottom(n), Index(n, path[i]), Index(n, path[i + 1]));
      i := i + 1;
    }
  }

  /** x is a sentinel or a site reachable from the top or from the bottom. */
  ghost predicate Reached(n: nat, open: seq<bool>, x: int)
    requires n > 0
  {
    || x == VTop(n) || x == VBottom(n)
    || (0 <= x < n * n && (ReachTop(n, open, PosOf(n, x)) || ReachBottom(n, open, PosOf(n, x))))
  }

  /** No edge leaves the sentinels and the sites reachable from either row. */
  lemma ReachedStep(n: nat, open: seq<bool>, a: int, b: int)
    requires n > 0 && |open| == n * n && Reached(n, open, a) && Linked(Edges(n, open), a, b)
    ensures Reached(n, open, b)
  {
    EdgesMember(n, open, a, b);
    EdgesMember(n, open, b, a);
    if AugEdge(n, open, a, b) {
      var pa := PosOf(n, a);
      IndexOfPosOf(n, a);
      if 0 <= b < n * n && open[b] && Adjacent(pa, PosOf(n, b)) {
        IndexOfPosOf(n, b);
        assert Passable(n, open, PosOf(n, b));
        if ReachTop(n, open, pa) {
          ReachTopStep(n, open, pa, PosOf(n, b));
        } else {
          ReachBottomStep(n, open, pa, PosOf(n, b));
        }
      }
    } else {
      assert AugEdge(n, open, b, a);
      var pb := PosOf(n, b);
      IndexOfPosOf(n, b);
      assert Passable(n, open, pb);
      ConnectsSelf(n, open, pb);
    }
  }

  /** Everything joined to VTOP is a sentinel or reachable from one of the two rows. */
  lemma {:induction false} JoinedFromTopReached(n: nat, open: seq<bool>, x: int)
    requires n > 0 && |open| == n * n && Joined(Edges(n, open), VTop(n), x)
    ensures Reached(n, open, x)
  {
    var E := Edges(n, open);
    var w: seq<int> :| IsWalk(E, w) && w[0] == VTop(n) && w[|w| - 1] == x;
    var i := 0;
    while i < |w| - 1
      invariant 0 <= i < |w|
      invariant Reached(n, open, w[i])
    {
      assert Linked(E, w[i], w[i + 1]);
      ReachedStep(n, open, w[i], w[i + 1]);
      i := i + 1;
    }
  }

  /** Both directions: a site is joined to VTOP exactly when it is reachable from
      the top, or the system percolates and the site is reachable from the
      bottom (backwash through VBOTTOM). */
  lemma JoinedTopIff(n: nat, open: seq<bool>, q: Pos)
    requires n > 0 && |open| == n * n && InBounds(n, q)
    ensures Joined(Edges(n, open), VTop(n), Index(n, q))
        <==> ReachTop(n, open, q) || (Percolation(n, open) && ReachBottom(n, open, q))
  {
    var E, i := Edges(n, open), Index(n, q);
    DecodeIndex(n, q);
    assert PosOf(n, i) == q;
    if Joined(E, VTop(n), i) {
      JoinedFromTop(n, open, i);
      JoinedFromTopReached(n, open, i);
    }
    if ReachTop(n, open, q) {
      ReachTopJoined(n, open, q);
    }
    if Percolation(n, open) && ReachBottom(n, open, q) {
      PercolationIffJoined(n, open);
      ReachBottomJoined(n, open, q);
      JoinedTrans(E, VTop(n), VBottom(n), i);
    }
  }

  /** The unions PercolationUF.open performs for site p after the first i
      neighbour offsets: (p, VTOP) in the top row, (p, VBOTTOM) in the bottom
      row, and (neighbour, p) for each in-bounds open neighbour. */
  ghost function Added(n: nat, open: seq<bool>, p: Pos, i: int): set<(int, int)>
    requires InBounds(n, p) && |open| == n * n
  {
    (if p.row == 0 then {(Index(n, p), VTop(n))} else {})
    + (if p.row == n - 1 then {(Index(n, p), VBottom(n))} else {})
    + (set k | 0 <= k < i && k < 4 && InBounds(n, Neighbour(p, k)) && open[Index(n, Neighbour(p, k))]
         :: (Index(n, Neighbour(p, k)), Index(n, p)))
  }

  /** The union of an open neighbour with p is an edge. */
  lemma NeighbourEdge(n: nat, open: seq<bool>, p: Pos, k: int)
    requires n > 0 && |open| == n * n && InBounds(n, p) && open[Index(n, p)] && 0 <= k < 4
    requires InBounds(n, Neighbour(p, k)) && open[Index(n, Neighbour(p, k))]
    ensures AugEdge(n, open, Index(n, Neighbour(p, k)), Index(n, p))
  {
    DecodeIndex(n, p);
    DecodeIndex(n, Neighbour(p, k));
    assert Adjacent(Neighbour(p, k), p);
  }

  /** Every union of the open is an edge of the new graph. */
  lemma AddedIsEdge(n: nat, open: seq<bool>, p: Pos, a: int, b: int)
    requires n > 0 && |open| == n * n && InBounds(n, p)
    requires (a, b) in Added(n, open[Index(n, p) := true], p, 4)
    ensures AugEdge(n, open[Index(n, p) := true], a, b)
  {
    var open' := open[Index(n, p) := true];
    var idx := Index(n, p);
    DecodeIndex(n, p);
    if a != idx {
      var k :| 0 <= k < 4 && InBounds(n, Neighbour(p, k)) && open'[Index(n, Neighbour(p, k))]
        && (a, b) == (Index(n, Neighbour(p, k)), idx);
      NeighbourEdge(n, open', p, k);
    }
  }

  /** An edge of the new graph touching p is one of the unions of the open;
      any other edge was already there. */
  lemma NewEdgeCovered(n: nat, open: seq<bool>, p: Pos, a: int, b: int)
    requires n > 0 && |open| == n * n && InBounds(n, p)
    requires AugEdge(n, open[Index(n, p) := true], a, b)
    ensures AugEdge(n, open, a, b) || Linked(Added(n, open[Index(n, p) := true], p, 4), a, b)
  {
    var open' := open[Index(n, p) := true];
    var idx := Index(n, p);
    DecodeIndex(n, p);
    if a == idx || b == idx {
      if 0 <= a < n * n && 0 <= b < n * n {
        var c := if a == idx then b else a;
        IndexOfPosOf(n, c);
        assert Adjacent(p, PosOf(n, c));
        NeighbourIsAdjacent(p, PosOf(n, c));
        var k :| 0 <= k < 4 && Neighbour(p, k) == PosOf(n, c);
        assert (c, idx) in Added(n, open', p, 4);
      }
    }
  }

  /** The graph before the open plus the unions of the open has the same links
      as the graph of the new open set: no union touches a closed or
      out-of-bounds site, and every new link is made. */
  lemma EdgesAfterOpen(n: nat, open: seq<bool>, p: Pos)
    requires n > 0 && |open| == n * n && InBounds(n, p)
    ensures var open' := open[Index(n, p) := true];
      && (forall e :: e in Edges(n, open) + Added(n, open', p, 4) ==> Linked(Edges(n, open'), e.0, e.1))
      && (forall e :: e in Edges(n, open') ==> Linked(Edges(n, open) + Added(n, open', p, 4), e.0, e.1))
  {
    var open' := open[Index(n, p) := true];
    var A := Edges(n, open) + Added(n, open', p, 4);
    forall e | e in A
      ensures e in Edges(n, open')
    {
      EdgesMember(n, open, e.0, e.1);
      EdgesMember(n, open', e.0, e.1);
      if e !in Edges(n, open) {
        AddedIsEdge(n, open, p, e.0, e.1);
      }
    }
    forall e | e in Edges(n, open')
      ensures Linked(A, e.0, e.1)
    {
      EdgesMember(n, open, e.0, e.1);
      EdgesMember(n, open', e.0, e.1);
      NewEdgeCovered(n, open, p, e.0, e.1);
    }
  }

  /** Before the neighbour loop only the sentinel unions have been made. */
  lemma AddedStart(n: nat, open: seq<bool>, p: Pos)
    requires InBounds(n, p) && |open| == n * n
    ensures Added(n, open, p, 0)
      == (if p.row == 0 then {(Index(n, p), VTop(n))} else {})
         + (if p.row == n - 1 then {(Index(n, p), VBottom(n))} else {})
  {
  }

  /** One more turn of the neighbour loop adds at most the union with
      neighbour i. */
  lemma AddedNext(n: nat, open: seq<bool>, p: Pos, i: int)
    requires InBounds(n, p) && |open| == n * n && 0 <= i < 4
    ensures Added(n, open, p, i + 1)
      == Added(n, open, p, i)
         + (if InBounds(n, Neighbour(p, i)) && open[Index(n, Neighbour(p, i))]
            then {(Index(n, Neighbour(p, i)), Index(n, p))} else {})
  {
  }
}
