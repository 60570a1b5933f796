/** Coordinates on the n-by-n grid, the flat encoding row * n + col shared by the
    breadth-first queue and the union-find universe, and the 4-neighbourhood. */
module Sites {

  /** A site; row 0 is the top row, row n - 1 the bottom row. */
  datatype Pos = Pos(row: int, col: int)

  predicate InBounds(n: int, p: Pos) {
    0 <= p.row < n && 0 <= p.col < n
  }

  /** Flat index of an in-bounds site. */
  function Index(n: nat, p: Pos): (i: nat)
    requires InBounds(n, p)
    ensures i < n * n
  {
    IndexBelowArea(n, p.row, p.col);
    p.row * n + p.col
  }

  /** Decoding of a flat index: row = i / n, col = i % n. */
  function PosOf(n: nat, i: int): Pos
    requires n > 0
  {
    Pos(i / n, i % n)
  }

  lemma IndexBelowArea(n: nat, r: int, c: int)
    requires 0 <= r < n && 0 <= c < n
    ensures 0 <= r * n + c < n * n
  {
    assert r * n <= (n - 1) * n;
  }

  /** Euclidean division is unique: if i == q * n + r with 0 <= r < n then
      q and r are i / n and i % n. */
  lemma DivModUnique(i: int, n: int, q: int, r: int)
    requires n > 0 && 0 <= r < n && i == q * n + r
    ensures i / n == q && i % n == r
  {
    var d := q - i / n;
    assert d * n == i % n - r;
  }

  /** Encoding then decoding gives back the site: the round trip the
      breadth-first queue relies on. */
  lemma DecodeIndex(n: nat, p: Pos)
    requires InBounds(n, p)
    ensures PosOf(n, Index(n, p)) == p
  {
    DivModUnique(p.row * n + p.col, n, p.row, p.col);
  }

  /** Every flat index below n * n decodes to an in-bounds site that encodes back to it. */
  lemma IndexOfPosOf(n: nat, i: int)
    requires n > 0 && 0 <= i < n * n
    ensures InBounds(n, PosOf(n, i)) && Index(n, PosOf(n, i)) == i
  {
    var q, r := i / n, i % n;
    assert i == q * n + r;
  }

  /** Distinct in-bounds sites have distinct flat indices, and none of them
      reaches n * n, where the union-find sentinels live. */
  lemma IndexInjective(n: nat, p: Pos, q: Pos)
    requires InBounds(n, p) && InBounds(n, q)
    ensures Index(n, p) == Index(n, q) <==> p == q
    ensures Index(n, p) < n * n
  {
    if Index(n, p) == Index(n, q) {
      DecodeIndex(n, p);
      DecodeIndex(n, q);
    }
  }

  lemma IndexInjectiveAll(n: nat)
    ensures forall p: Pos, q: Pos {:trigger Index(n, p), Index(n, q)} ::
      InBounds(n, p) && InBounds(n, q) && Index(n, p) == Index(n, q) ==> p == q
  {
    forall p: Pos, q: Pos | InBounds(n, p) && InBounds(n, q) && Index(n, p) == Index(n, q)
      ensures p == q
    {
      IndexInjective(n, p, q);
    }
  }

  /** The k-th neighbour in the order of the offset tables
      dRow = {-1, 1, 0, 0}, dCol = {0, 0, 1, -1}: up, down, right, left. */
  function Neighbour(p: Pos, k: int): Pos
    requires 0 <= k < 4
  {
    if k == 0 then Pos(p.row - 1, p.col)
    else if k == 1 then Pos(p.row + 1, p.col)
    else if k == 2 then Pos(p.row, p.col + 1)
    else Pos(p.row, p.col - 1)
  }

  /** One up/down/left/right step. */
  predicate Adjacent(p: Pos, q: Pos) {
    (p.row == q.row && (p.col - q.col == 1 || q.col - p.col == 1)) ||
    (p.col == q.col && (p.row - q.row == 1 || q.row - p.row == 1))
  }

  /** The four offsets enumerate exactly the adjacent sites. */
  lemma NeighbourIsAdjacent(p: Pos, q: Pos)
    ensures Adjacent(p, q) <==> exists k :: 0 <= k < 4 && Neighbour(p, k) == q
  {
    if Adjacent(p, q) {
      if q.row == p.row - 1 {
        assert Neighbour(p, 0) == q;
      } else if q.row == p.row + 1 {
        assert Neighbour(p, 1) == q;
      } else if q.col == p.col + 1 {
        assert Neighbour(p, 2) == q;
      } else {
        assert Neighbour(p, 3) == q;
      }
    }
  }
}
