/** PercolationUF: a boolean grid of open sites and a union-find over the n * n
    sites plus VTOP and VBOTTOM. Opening a site unions it with the sentinels of
    its row and with its open neighbours; percolation is VTOP joined to VBOTTOM. */
module UnionFindEngine {
  import opened Wrappers
  import opened Sites
  import opened Paths
  import opened Counting
  import opened QuickFind
  import opened Augmented

  /** mySize, myGrid (flattened), myFinder and myOpenCount. */
  datatype State = State(n: nat, grid: seq<bool>, finder: UnionFind, openCount: int)

  /** What holds between calls: the finder's components are exactly the
      connected components of the augmented graph of the open sites. */
  ghost predicate Inv(s: State) {
    && s.n > 0
    && |s.grid| == s.n * s.n
    && |s.finder.id| == s.n * s.n + 2
    && s.openCount == CountTrue(s.grid)
    && Represents(s.finder, Edges(s.n, s.grid))
  }

  /** The constructor: every site closed, the finder initialised with n * n + 2
      singletons, VTOP = n * n and VBOTTOM = n * n + 1. */
  function New(n: nat): (s: State)
    requires n > 0
    ensures Inv(s) && s.n == n && s.openCount == 0
    ensures forall i :: 0 <= i < n * n ==> !s.grid[i]
    ensures !Connected(s.finder, VTop(n), VBottom(n))
  {
    var none := seq(n * n, i => false);
    CountNone(none);
    EdgesNone(n);
    InitializeRepresents(n * n + 2);
    State(n, none, Initialize(n * n + 2), 0)
  }

  /** Unions of the neighbour loop: each in-bounds open neighbour i is joined to
      p, and the edges made so far are the graph before the open plus Added. */
  method UnionNeighbours(n: nat, old_grid: seq<bool>, grid: seq<bool>, p: Pos, u: UnionFind, ghost E: set<(int, int)>)
    returns (u': UnionFind, ghost E': set<(int, int)>)
    requires n > 0 && |old_grid| == n * n && InBounds(n, p) && grid == old_grid[Index(n, p) := true]
    requires |u.id| == n * n + 2 && Represents(u, E)
    requires E == Edges(n, old_grid) + Added(n, grid, p, 0)
    ensures |u'.id| == n * n + 2 && Represents(u', E')
    ensures E' == Edges(n, old_grid) + Added(n, grid, p, 4)
  {
    var idx := Index(n, p);
    u', E' := u, E;
    var i := 0;
    while i < 4
      invariant 0 <= i <= 4
      invariant |u'.id| == n * n + 2 && Represents(u', E')
      invariant E' == Edges(n, old_grid) + Added(n, grid, p, i)
    {
      var nb := Neighbour(p, i);
      AddedNext(n, grid, p, i);
      if InBounds(n, nb) && grid[Index(n, nb)] {
        UnionRepresents(u', E', Index(n, nb), idx);
        u' := Union(u', Index(n, nb), idx);
        E' := E' + {(Index(n, nb), idx)};
      }
      i := i + 1;
    }
  }

  /** open: throws outside the grid; re-opening an open site changes nothing;
      otherwise the site opens, the count grows by one, the site is joined to
      VTOP in the top row, to VBOTTOM in the bottom row and to each open
      neighbour, and the finder again represents the augmented graph. */
  method OpenSite(s: State, row: int, col: int) returns (r: Result<State>)
    requires Inv(s)
    ensures r.Failure? <==> !InBounds(s.n, Pos(row, col))
    ensures r.Failure? ==> r.error == IndexOutOfBounds(row, col)
    ensures r.Success? && s.grid[Index(s.n, Pos(row, col))] ==> r.value == s
    ensures r.Success? && !s.grid[Index(s.n, Pos(row, col))] ==> r.value.openCount == s.openCount + 1
    ensures r.Success? ==> Inv(r.value) && r.value.n == s.n
    ensures r.Success? ==> r.value.grid == s.grid[Index(s.n, Pos(row, col)) := true]
    ensures r.Success? && row == 0 ==> Connected(r.value.finder, Index(s.n, Pos(row, col)), VTop(s.n))
    ensures r.Success? && row == s.n - 1 ==> Connected(r.value.finder, Index(s.n, Pos(row, col)), VBottom(s.n))
    ensures r.Success? ==> forall k :: 0 <= k < 4 && InBounds(s.n, Neighbour(Pos(row, col), k)) && s.grid[Index(s.n, Neighbour(Pos(row, col), k))] ==>
      Connected(r.value.finder, Index(s.n, Pos(row, col)), Index(s.n, Neighbour(Pos(row, col), k)))
    ensures r.Success? ==> forall x, y :: 0 <= x < |s.finder.id| && 0 <= y < |s.finder.id| && Connected(s.finder, x, y) ==>
      Connected(r.value.finder, x, y)
  {
    var n := s.n;
    var p := Pos(row, col);
    if !InBounds(n, p) {
      return Failure(IndexOutOfBounds(row, col));
    }
    var idx := Index(n, p);
    if s.grid[idx] {
      OpenSiteLinked(s, p);
      return Success(s);
    }
    var grid := s.grid[idx := true];
    var u := s.finder;
    ghost var E := Edges(n, s.grid);
    if row == 0 {
      UnionRepresents(u, E, idx, VTop(n));
      u := Union(u, idx, VTop(n));
      E := E + {(idx, VTop(n))};
    }
    if row == n - 1 {
      UnionRepresents(u, E, idx, VBottom(n));
      u := Union(u, idx, VBottom(n));
      E := E + {(idx, VBottom(n))};
    }
    AddedStart(n, grid, p);
    u, E := UnionNeighbours(n, s.grid, grid, p, u, E);
    OpenedFinder(n, s.grid, p, u, E);
    ComponentsGrow(n, s.grid, p, s.finder, u);
    CountUpdate(s.grid, idx, true);
    r := Success(State(n, grid, u, s.openCount + 1));
  }

  /** After the unions of an open, the finder represents the augmented graph of
      the new open set, and the site is joined to everything it was linked to. */
  lemma OpenedFinder(n: nat, open: seq<bool>, p: Pos, u: UnionFind, E: set<(int, int)>)
    requires n > 0 && |open| == n * n && InBounds(n, p) && |u.id| == n * n + 2
    requires Represents(u, E) && E == Edges(n, open) + Added(n, open[Index(n, p) := true], p, 4)
    ensures Represents(u, Edges(n, open[Index(n, p) := true]))
    ensures p.row == 0 ==> Connected(u, Index(n, p), VTop(n))
    ensures p.row == n - 1 ==> Connected(u, Index(n, p), VBottom(n))
    ensures forall k :: 0 <= k < 4 && InBounds(n, Neighbour(p, k)) && open[Index(n, Neighbour(p, k))] ==>
      Connected(u, Index(n, p), Index(n, Neighbour(p, k)))
  {
    var open' := open[Index(n, p) := true];
    var idx := Index(n, p);
    EdgesAfterOpen(n, open, p);
    EdgesWithinUniverse(n, open');
    RepresentsSameLinks(u, E, Edges(n, open'));
    forall x, y | (x, y) in Added(n, open', p, 4)
      ensures Connected(u, x, y) && Connected(u, y, x)
    {
      JoinedSelf(E, x);
      JoinedStep(E, x, x, y);
      JoinedSym(E, x, y);
    }
    forall k | 0 <= k < 4 && InBounds(n, Neighbour(p, k)) && open[Index(n, Neighbour(p, k))]
      ensures Connected(u, idx, Index(n, Neighbour(p, k)))
    {
      IndexInjective(n, p, Neighbour(p, k));
      assert (Index(n, Neighbour(p, k)), idx) in Added(n, open', p, 4);
    }
  }

  /** Opening a site only adds edges, so no two elements ever come apart: in
      particular a site joined to VTOP stays joined. */
  lemma ComponentsGrow(n: nat, open: seq<bool>, p: Pos, u: UnionFind, u': UnionFind)
    requires n > 0 && |open| == n * n && InBounds(n, p) && |u'.id| == |u.id|
    requires Represents(u, Edges(n, open)) && Represents(u', Edges(n, open[Index(n, p) := true]))
    ensures forall x, y :: 0 <= x < |u.id| && 0 <= y < |u.id| && Connected(u, x, y) ==> Connected(u', x, y)
  {
    var open' := open[Index(n, p) := true];
    forall e | e in Edges(n, open)
      ensures Linked(Edges(n, open'), e.0, e.1)
    {
      EdgesMember(n, open, e.0, e.1);
      EdgesMember(n, open', e.0, e.1);
    }
    forall x, y | 0 <= x < |u.id| && 0 <= y < |u.id| && Connected(u, x, y)
      ensures Connected(u', x, y)
    {
      JoinedSub(Edges(n, open), Edges(n, open'), x, y);
    }
  }

  /** Under the invariant an open site is already joined to the sentinel of its
      row and to its open neighbours. */
  lemma OpenSiteLinked(s: State, p: Pos)
    requires Inv(s) && InBounds(s.n, p) && s.grid[Index(s.n, p)]
    ensures p.row == 0 ==> Connected(s.finder, Index(s.n, p), VTop(s.n))
    ensures p.row == s.n - 1 ==> Connected(s.finder, Index(s.n, p), VBottom(s.n))
    ensures forall k :: 0 <= k < 4 && InBounds(s.n, Neighbour(p, k)) && s.grid[Index(s.n, Neighbour(p, k))] ==>
      Connected(s.finder, Index(s.n, p), Index(s.n, Neighbour(p, k)))
  {
    var n, idx, E := s.n, Index(s.n, p), Edges(s.n, s.grid);
    DecodeIndex(n, p);
    JoinedSelf(E, idx);
    if p.row == 0 {
      EdgesMember(n, s.grid, idx, VTop(n));
      JoinedStep(E, idx, idx, VTop(n));
    }
    if p.row == n - 1 {
      EdgesMember(n, s.grid, idx, VBottom(n));
      JoinedStep(E, idx, idx, VBottom(n));
    }
    forall k | 0 <= k < 4 && InBounds(n, Neighbour(p, k)) && s.grid[Index(n, Neighbour(p, k))]
      ensures Connected(s.finder, idx, Index(n, Neighbour(p, k)))
    {
      var q := Neighbour(p, k);
      DecodeIndex(n, q);
      NeighbourIsAdjacent(p, q);
      EdgesMember(n, s.grid, idx, Index(n, q));
      JoinedStep(E, idx, idx, Index(n, q));
    }
  }

  /** isOpen: throws outside the grid, otherwise reads the grid. */
  function IsOpen(s: State, row: int, col: int): (r: Result<bool>)
    requires Inv(s)
    ensures r.Failure? <==> !InBounds(s.n, Pos(row, col))
    ensures r.Failure? ==> r.error == IndexOutOfBounds(row, col)
    ensures r.Success? ==> (r.value <==> Passable(s.n, s.grid, Pos(row, col)))
  {
    if !InBounds(s.n, Pos(row, col)) then Failure(IndexOutOfBounds(row, col))
    else Success(s.grid[Index(s.n, Pos(row, col))])
  }

  /** isFull: throws outside the grid, otherwise asks whether the site is joined
      to VTOP. Until the system percolates that is exactly reachability from the
      top; once it percolates a site reachable only from the bottom row, joined
      to VTOP through VBOTTOM, also answers true (backwash). A closed site never
      answers true. */
  function IsFull(s: State, row: int, col: int): (r: Result<bool>)
    requires Inv(s)
    ensures r.Failure? <==> !InBounds(s.n, Pos(row, col))
    ensures r.Failure? ==> r.error == IndexOutOfBounds(row, col)
    ensures r.Success? ==>
      (r.value <==> ReachTop(s.n, s.grid, Pos(row, col))
                    || (Percolation(s.n, s.grid) && ReachBottom(s.n, s.grid, Pos(row, col))))
    ensures r.Success? && r.value ==> Passable(s.n, s.grid, Pos(row, col))
  {
    if !InBounds(s.n, Pos(row, col)) then Failure(IndexOutOfBounds(row, col))
    else
      var p := Pos(row, col);
      var i := Index(s.n, p);
      FullAnswer(s, p);
      Success(Connected(s.finder, i, VTop(s.n)))
  }

  /** The meaning of "joined to VTOP" for a site under the invariant: reachable
      from the top, or reachable from the bottom in a system that percolates;
      either way the site is open. */
  lemma FullAnswer(s: State, p: Pos)
    requires Inv(s) && InBounds(s.n, p)
    ensures Connected(s.finder, Index(s.n, p), VTop(s.n))
        <==> ReachTop(s.n, s.grid, p) || (Percolation(s.n, s.grid) && ReachBottom(s.n, s.grid, p))
    ensures Connected(s.finder, Index(s.n, p), VTop(s.n)) ==> Passable(s.n, s.grid, p)
  {
    var n, i := s.n, Index(s.n, p);
    DecodeIndex(n, p);
    var E := Edges(n, s.grid);
    JoinedTopIff(n, s.grid, p);
    if Connected(s.finder, i, VTop(n)) {
      JoinedSym(E, i, VTop(n));
      if ReachTop(n, s.grid, p) {
        ReachTopEnd(n, s.grid, p);
      } else {
        ReachBottomEnd(n, s.grid, p);
      }
    } else if Joined(E, VTop(n), i) {
      JoinedSym(E, VTop(n), i);
    }
  }

  /** percolates: VTOP and VBOTTOM are in one component, which happens exactly
      when some bottom-row site is reachable from the top. */
  function Percolates(s: State): (b: bool)
    requires Inv(s)
    ensures b <==> Percolation(s.n, s.grid)
  {
    PercolationIffJoined(s.n, s.grid);
    Connected(s.finder, VTop(s.n), VBottom(s.n))
  }

  /** numberOfOpenSites: the number of distinct sites opened so far. */
  function NumberOfOpenSites(s: State): (k: int)
    requires Inv(s)
    ensures k == CountTrue(s.grid)
  {
    s.openCount
  }
}
