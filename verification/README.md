# Percolation on an n-by-n grid, in Dafny

This project models the percolation engines of a Java course project. Sites
of an n-by-n grid start blocked and are opened one at a time. A site is
*full* when a path of open sites joins it to the top row by up, down, left
and right steps. The system *percolates* when some bottom-row site is full.

Four engines answer `open`, `isOpen`, `isFull`, `percolates` and
`numberOfOpenSites`:

- `PercolationDFS` keeps a grid of BLOCKED / OPEN / FULL. On every open it
  clears all FULL marks, then floods by recursive depth-first search from
  every top-row site.
- `PercolationDFSFast` floods only from the site just opened, and only if
  that site is in row 0 or has a FULL neighbour.
- `PercolationBFS` is `PercolationDFSFast` with the recursive flood replaced
  by a FIFO queue of flat indices `row * n + col`.
- `PercolationUF` keeps a boolean grid and a union-find over n * n + 2
  elements. VTOP = n * n and VBOTTOM = n * n + 1 are virtual sentinels.

Every engine's state is an immutable value. Each operation returns a new
state, or a `Failure(IndexOutOfBounds(row, col))` where Java throws.

Reachability is a ghost predicate over a mask of passable sites
(`Paths.ReachTop`, `Paths.Percolation`). The flood engines keep one
invariant: a site is FULL exactly when it is reachable from the top
(`FloodInvariant.FullIsReach`). The naive recompute establishes it and the
incremental update restores it. Each engine's `open` returns exactly
`Reference(n, open sites)`, the one grid that satisfies the invariant, so the
three flood engines agree after any sequence of calls. The breadth-first
flood produces the grid of the recursive flood because a flood's outcome is
unique (`FloodGrid.FloodedUnique`).

The union-find is modelled as a quick-find component-id array. Its ghost
meaning is `QuickFind.Represents`: two elements share an id exactly when a
walk over the unions made so far joins them. The engine keeps the finder
representing the augmented graph `Augmented.Edges`. That graph links open
adjacent sites, open top-row sites to VTOP and open bottom-row sites to
VBOTTOM. VTOP is joined to VBOTTOM in it exactly when the system
percolates, so `percolates` agrees with the flood engines
(`Agreement.Compare`).

`isFull` does not agree. Once the system percolates, an open bottom-row site
joined only to VBOTTOM is also joined to VTOP, and `PercolationUF.isFull`
reports it full; this is the "backwash" effect. One could read the engines'
common interface as promising that all four engines agree on `isFull`. The
code does not keep that promise. The model follows the code:

- `UnionFindEngine.IsFull` answers true exactly for the sites reachable from
  the top, plus, once the system percolates, the sites reachable from the
  bottom row (`Augmented.JoinedTopIff`); a closed site never answers true;
- without percolation, the answer is exactly reachability from the top;
- `Agreement.Backwash` exhibits a 3-by-3 grid on which the engines disagree,
  and `Agreement.BackwashRun` reaches it by four calls to `open`.

## Model

| member | source | states |
|---|---|---|
| Sites.DecodeIndex | src/PercolationBFS.java:28-33 | encoding an in-bounds site as row * n + col and decoding with / n and % n gives the site back |
| Sites.IndexInjective | src/PercolationUF.java:117-119 | distinct in-bounds sites get distinct flat indices, all below n * n, so none collides with VTOP or VBOTTOM |
| Sites.NeighbourIsAdjacent | src/PercolationDFSFast.java:28-32 | the offset tables {-1,1,0,0} / {0,0,1,-1} enumerate exactly the up/down/left/right neighbours |
| FloodEngine.New | src/PercolationDFS.java:28-33 | a fresh grid has every site BLOCKED, count 0, and satisfies the invariant |
| FloodEngine.OpenSite | src/PercolationDFS.java:42-53 | fails exactly out of bounds; re-opening is a no-op; otherwise the count grows by one, only the new site joins the open set, the invariant holds again, the grid is the reference grid of its open sites whichever engine runs, and no FULL site is demoted |
| FloodEngine.IsOpen | src/PercolationDFS.java:62-69 | fails exactly out of bounds; otherwise true iff the site is not BLOCKED |
| FloodEngine.IsFull | src/PercolationDFS.java:78-86 | fails exactly out of bounds; otherwise true iff the site is reachable from an open top-row site through open sites |
| FloodEngine.ClearFull | src/PercolationDFS.java:91-99 | every FULL site becomes OPEN and every other site keeps its state |
| FloodEngine.UpdateNaive | src/PercolationDFS.java:106-110 | from any grid, clearing and flooding from each top-row site leaves FULL exactly on the sites reachable from the top, with the open sites unchanged |
| FloodEngine.Percolates | src/PercolationDFS.java:116-121 | true iff some bottom-row site is FULL, and iff the system percolates |
| FloodEngine.NumberOfOpenSites | src/PercolationDFS.java:151-153 | the count equals the number of non-BLOCKED sites |
| DepthFirst.Dfs | src/PercolationDFS.java:132-145 | the recursive flood terminates and its result is a flood from p: only OPEN sites become FULL, BLOCKED sites never change, no marked site keeps an OPEN neighbour, and every marked site is connected to p through OPEN sites |
| FloodGrid.FloodedComplete | src/PercolationDFS.java:132-145 | a flood from an OPEN site marks every site connected to it through OPEN sites |
| FloodGrid.FloodedUnique | src/PercolationBFS.java:24-51 | two floods from the same start on the same grid give the same grid |
| FloodInvariant.CharacteriseFull | src/PercolationDFS.java:106-110 | both directions: FULL means reachable from the top iff no FULL site has an OPEN neighbour, no top-row site is OPEN, and every FULL site is reachable |
| FloodInvariant.FullIsReachReference | src/PercolationDFS.java:42-53 | a grid satisfying the invariant is determined by its open sites |
| FloodEngine.UpdateFast | src/PercolationDFSFast.java:23-43 | it floods (once) iff the site is in row 0 or has an in-bounds FULL neighbour; otherwise the grid is unchanged; FULL only grows; the invariant is restored |
| FloodInvariant.FastFloodRestores | src/PercolationDFSFast.java:24-27 | flooding from a new site that is in row 0 or next to a FULL site restores the invariant and keeps the open sites |
| FloodInvariant.FastSkipKeeps | src/PercolationDFSFast.java:30-43 | a new site below row 0 with no FULL neighbour leaves the invariant intact without any flood |
| BreadthFirst.Bfs | src/PercolationBFS.java:24-51 | the queue-based flood from an OPEN site is a flood from that site and yields exactly the grid of the recursive flood |
| BreadthFirst.VisitNeighbours | src/PercolationBFS.java:37-49 | after scanning the four neighbours of a dequeued site none of them is OPEN, every marked site is still connected to the start and either settled or waiting in the queue, and the number of OPEN sites drops unless nothing changed |
| FloodEngine.Flood | src/PercolationBFS.java:24-51 | the breadth-first and recursive floods are interchangeable: both give the recursive flood's grid |
| UnionFindEngine.New | src/PercolationUF.java:21-33 | all sites closed, count 0, the finder represents the empty graph over n * n + 2 elements, and VTOP is not joined to VBOTTOM |
| UnionFindEngine.OpenSite | src/PercolationUF.java:44-77 | fails exactly out of bounds; re-opening is a no-op; otherwise the site opens, the count grows by one, the site is joined to VTOP in row 0, to VBOTTOM in row n - 1 and to each open neighbour, no two elements come apart, and the finder represents the new augmented graph |
| UnionFindEngine.UnionNeighbours | src/PercolationUF.java:63-76 | the neighbour loop unions exactly the in-bounds open neighbours with the site and keeps the finder representing the unions made |
| UnionFindEngine.OpenedFinder | src/PercolationUF.java:53-76 | after the unions of an open the finder represents the augmented graph of the new open set |
| UnionFindEngine.OpenSiteLinked | src/PercolationUF.java:49-51 | an already open site is already joined to its row's sentinel and its open neighbours, so the no-op keeps every promise of open |
| UnionFindEngine.ComponentsGrow | src/PercolationUF.java:53-76 | opening a site never separates two joined elements |
| Augmented.EdgesAfterOpen | src/PercolationUF.java:53-76 | every union of the open links two open adjacent sites or an open site and its row's sentinel, and every link of the new graph is made |
| UnionFindEngine.IsOpen | src/PercolationUF.java:89-96 | fails exactly out of bounds; otherwise true iff the site is open |
| UnionFindEngine.IsFull | src/PercolationUF.java:109-115 | fails exactly out of bounds; otherwise true iff the site is reachable from the top, or the system percolates and the site is reachable from the bottom row (backwash); a closed site never answers true |
| UnionFindEngine.FullAnswer | src/PercolationUF.java:109-115 | both directions: joined to VTOP iff reachable from the top, or reachable from the bottom in a percolating system; joined to VTOP implies open |
| Augmented.JoinedTopIff | src/PercolationUF.java:109-115 | both directions: in the augmented graph a site is joined to VTOP iff it is reachable from the top, or the system percolates and it is reachable from the bottom row |
| Augmented.ReachBottomJoined | src/PercolationUF.java:53-76 | a site reachable from an open bottom-row site is joined to VBOTTOM |
| Augmented.JoinedFromTop | src/PercolationUF.java:109-115 | everything joined to VTOP is VTOP or reachable from the top, unless the system percolates |
| Augmented.PercolationIffJoined | src/PercolationUF.java:127-129 | both directions: VTOP is joined to VBOTTOM iff some bottom-row site is reachable from the top |
| UnionFindEngine.Percolates | src/PercolationUF.java:127-129 | true iff the system percolates |
| UnionFindEngine.NumberOfOpenSites | src/PercolationUF.java:136-138 | the count equals the number of open sites |
| QuickFind.Initialize | src/PercolationUF.java:30 | initialize(n) gives n singleton components |
| QuickFind.Union | src/PercolationUF.java:74 | union(p, q) merges the components of p and q and joins no other pair |
| QuickFind.UnionRepresents | src/PercolationUF.java:55-61 | a finder that represents the unions E represents E plus (p, q) after union(p, q) |
| Agreement.Run | src/PercolationUF.java:44-77 | after the same calls to open, a flood engine and the union-find engine hold exactly the in-bounds sites of the calls, the same count, and the flood grid is the reference grid |
| Agreement.Compare | src/PercolationUF.java:127-129 | after the same calls to open, the flood engine's percolates and the union-find engine's percolates give the same answer |
| Agreement.IsFullAgree | src/PercolationUF.java:109-115 | on the same open sites, a flood engine's isFull implies the union-find engine's, and the two are equal while the system does not percolate |
| Agreement.Backwash | src/PercolationUF.java:109-115 | on a 3-by-3 grid with the left column and the bottom-right site open, the union-find engine reports the bottom-right site full while no open path reaches it and a flood engine reports it not full |
| Agreement.BackwashRun | src/PercolationUF.java:109-115 | the calls open(0, 0), open(1, 0), open(2, 0), open(2, 2) on a 3-by-3 grid make the flood engine percolate, and afterwards isFull(2, 2) is true in the union-find engine and false in the flood engine |

## Left out

- The `IPercolate` interface and its integer constants BLOCKED, OPEN and FULL
  are not part of this model; the three cell states are a datatype.
- Only quick-find is modelled as `IUnionFind`. `QuickFind.Union` and
  `QuickFind.Connected` require in-range indices, so the out-of-bounds errors
  of a real `IUnionFind` are not modelled. The engine only passes indices
  below n * n + 2.
- Java `int` arithmetic is unbounded here. `n * n + 2` and `row * n + col`
  overflow 32 bits for n above 46340, and this is not modelled.
- UnionFindEngine.New: requires n > 0, as does `FloodEngine.New`; the design
  asks for a positive grid size. `PercolationUF` is in fact well-defined at
  n = 0: its `inBounds` rejects every row before it reads `myGrid[0]`, so
  every `open`, `isOpen` and `isFull` throws IndexOutOfBoundsException,
  `percolates` is false and `numberOfOpenSites` is 0. That case is not
  modelled. For n = 0 the flood engines' `percolates` indexes row -1 and
  throws. A negative n makes the array allocation throw.
- Exception messages built with `String.format` are not modelled; the error
  value carries the row and column.
- `Arrays.fill`, `LinkedList` internals and the unused `PriorityQueue` import
  are not modelled. The queue is a sequence with pop-front and append.
- The depth of the Java call stack in the recursive `dfs` is not modelled.
  Termination is proved by the number of OPEN sites, which each marking
  lowers.
- Mutation is not modelled. Each operation returns a new engine state, and a
  failed call returns no state, which matches Java leaving the object
  untouched.
- BreadthFirst.Bfs: requires the start site to be OPEN. The Java method marks
  any start FULL unconditionally, but its only caller, the fast
  `updateOnOpen`, passes the site it has just opened.
- BreadthFirst.Bfs: "each site is enqueued at most once" is not stated as a
  separate property. It follows because a site is marked before it is
  enqueued and only unmarked sites are enqueued. The loop terminates
  because each turn lowers the number of OPEN sites or, failing that,
  shortens the queue.
- `isFull` is not claimed equal across engines: because of backwash the
  union-find engine's answer differs from the flood engines' once the system
  percolates, and the model states the union-find answer as it is.
