/** Connectivity through passable sites by up/down/left/right steps. A mask of
    n * n booleans, indexed by the flat encoding, says which sites may be stepped on. */
module Paths {
  import opened Sites

  predicate Passable(n: nat, mask: seq<bool>, p: Pos) {
    |mask| == n * n && InBounds(n, p) && mask[Index(n, p)]
  }

  /** A non-empty sequence of passable sites, each adjacent to the next. */
  ghost predicate IsPath(n: nat, mask: seq<bool>, path: seq<Pos>) {
    && |path| > 0
    && (forall i :: 0 <= i < |path| ==> Passable(n, mask, path[i]))
    && (forall i :: 0 < i < |path| ==> Adjacent(path[i - 1], path[i]))
  }

  /** q can be reached from s through passable sites. */
  ghost predicate Connects(n: nat, mask: seq<bool>, s: Pos, q: Pos) {
    exists path: seq<Pos> :: IsPath(n, mask, path) && path[0] == s && path[|path| - 1] == q
  }

  /** q can be reached from some passable top-row site through passable sites:
      with the mask of open sites, this is what "full" means. */
  ghost predicate ReachTop(n: nat, mask: seq<bool>, q: Pos) {
    exists path: seq<Pos> :: IsPath(n, mask, path) && path[0].row == 0 && path[|path| - 1] == q
  }

  /** q can be reached from some passable bottom-row site through passable
      sites: with the mask of open sites, this is what joins q to VBOTTOM. */
  ghost predicate ReachBottom(n: nat, mask: seq<bool>, q: Pos) {
    exists path: seq<Pos> :: IsPath(n, mask, path) && path[0].row == n - 1 && path[|path| - 1] == q
  }

  /** Some bottom-row site is reachable from the top: the system percolates. */
  ghost predicate Percolation(n: nat, mask: seq<bool>) {
    exists c :: 0 <= c < n && BottomReached(n, mask, c)
  }

  /** The bottom-row site in column c is reachable from the top. */
  ghost predicate BottomReached(n: nat, mask: seq<bool>, c: int) {
    ReachTop(n, mask, Pos(n - 1, c))
  }

  /** mask2 lets through at least what mask1 does. */
  predicate Within(mask1: seq<bool>, mask2: seq<bool>) {
    |mask1| == |mask2| && forall i :: 0 <= i < |mask1| && mask1[i] ==> mask2[i]
  }

  lemma ConnectsSelf(n: nat, mask: seq<bool>, s: Pos)
    requires Passable(n, mask, s)
    ensures Connects(n, mask, s, s)
    ensures s.row == 0 ==> ReachTop(n, mask, s)
    ensures s.row == n - 1 ==> ReachBottom(n, mask, s)
  {
    assert IsPath(n, mask, [s]);
  }

  lemma ConnectsEnds(n: nat, mask: seq<bool>, s: Pos, q: Pos)
    requires Connects(n, mask, s, q)
    ensures Passable(n, mask, s) && Passable(n, mask, q)
  {
    var path: seq<Pos> :| IsPath(n, mask, path) && path[0] == s && path[|path| - 1] == q;
  }

  lemma ReachTopEnd(n: nat, mask: seq<bool>, q: Pos)
    requires ReachTop(n, mask, q)
    ensures Passable(n, mask, q)
  {
    var path: seq<Pos> :| IsPath(n, mask, path) && path[0].row == 0 && path[|path| - 1] == q;
  }

  lemma ReachBottomEnd(n: nat, mask: seq<bool>, q: Pos)
    requires ReachBottom(n, mask, q)
    ensures Passable(n, mask, q)
  {
    var path: seq<Pos> :| IsPath(n, mask, path) && path[0].row == n - 1 && path[|path| - 1] == q;
  }

  /** Two paths that meet in adjacent sites join into one. */
  lemma JoinPaths(n: nat, mask: seq<bool>, a: seq<Pos>, b: seq<Pos>)
    requires IsPath(n, mask, a) && IsPath(n, mask, b)
    requires Adjacent(a[|a| - 1], b[0])
    ensures IsPath(n, mask, a + b)
  {
    var ab := a + b;
    forall i | 0 < i < |ab|
      ensures Adjacent(ab[i - 1], ab[i])
    {
      if i < |a| {
        assert ab[i - 1] == a[i - 1] && ab[i] == a[i];
      } else if i == |a| {
        assert ab[i - 1] == a[|a| - 1] && ab[i] == b[0];
      } else {
        assert ab[i - 1] == b[i - 1 - |a|] && ab[i] == b[i - |a|];
      }
    }
  }

  /** Stepping from s to an adjacent passable site t, then on to q. */
  lemma ConnectsPrepend(n: nat, mask: seq<bool>, s: Pos, t: Pos, q: Pos)
    requires Passable(n, mask, s) && Adjacent(s, t) && Connects(n, mask, t, q)
    ensures Connects(n, mask, s, q)
  {
    var path: seq<Pos> :| IsPath(n, mask, path) && path[0] == t && path[|path| - 1] == q;
    assert IsPath(n, mask, [s]);
    JoinPaths(n, mask, [s], path);
    assert ([s] + path)[0] == s;
    assert ([s] + path)[|[s] + path| - 1] == q;
  }

  /** Connectivity extends by one step to an adjacent passable site. */
  lemma ConnectsStep(n: nat, mask: seq<bool>, s: Pos, q: Pos, r: Pos)
    requires Connects(n, mask, s, q) && Passable(n, mask, r) && Adjacent(q, r)
    ensures Connects(n, mask, s, r)
  {
    var path: seq<Pos> :| IsPath(n, mask, path) && path[0] == s && path[|path| - 1] == q;
    assert IsPath(n, mask, [r]);
    JoinPaths(n, mask, path, [r]);
    assert (path + [r])[0] == s;
    assert (path + [r])[|path + [r]| - 1] == r;
  }

  /** Fullness spreads to an adjacent passable site. */
  lemma ReachTopStep(n: nat, mask: seq<bool>, q: Pos, r: Pos)
    requires ReachTop(n, mask, q) && Passable(n, mask, r) && Adjacent(q, r)
    ensures ReachTop(n, mask, r)
  {
    var path: seq<Pos> :| IsPath(n, mask, path) && path[0].row == 0 && path[|path| - 1] == q;
    assert IsPath(n, mask, [r]);
    JoinPaths(n, mask, path, [r]);
    assert (path + [r])[0] == path[0];
    assert (path + [r])[|path + [r]| - 1] == r;
  }

  /** Reachability from the bottom spreads to an adjacent passable site. */
  lemma ReachBottomStep(n: nat, mask: seq<bool>, q: Pos, r: Pos)
    requires ReachBottom(n, mask, q) && Passable(n, mask, r) && Adjacent(q, r)
    ensures ReachBottom(n, mask, r)
  {
    var path: seq<Pos> :| IsPath(n, mask, path) && path[0].row == n - 1 && path[|path| - 1] == q;
    assert IsPath(n, mask, [r]);
    JoinPaths(n, mask, path, [r]);
    assert (path + [r])[0] == path[0];
    assert (path + [r])[|path + [r]| - 1] == r;
  }

  /** A site reachable from a full site (or from an adjacent full site) is full. */
  lemma ReachTopThenConnects(n: nat, mask: seq<bool>, t: Pos, s: Pos, q: Pos)
    requires ReachTop(n, mask, t) && (t == s || Adjacent(t, s)) && Connects(n, mask, s, q)
    ensures ReachTop(n, mask, q)
  {
    var a: seq<Pos> :| IsPath(n, mask, a) && a[0].row == 0 && a[|a| - 1] == t;
    var b: seq<Pos> :| IsPath(n, mask, b) && b[0] == s && b[|b| - 1] == q;
    if t == s {
      if |b| == 1 {
        assert q == t;
      } else {
        var b' := b[1..];
        assert IsPath(n, mask, b') by {
          forall i | 0 < i < |b'| ensures Adjacent(b'[i - 1], b'[i]) {
            assert b'[i - 1] == b[i] && b'[i] == b[i + 1];
          }
        }
        assert Adjacent(b[0], b[1]);
        JoinPaths(n, mask, a, b');
        assert (a + b')[0] == a[0];
        assert (a + b')[|a + b'| - 1] == q;
      }
    } else {
      JoinPaths(n, mask, a, b);
      assert (a + b)[0] == a[0];
      assert (a + b)[|a + b| - 1] == q;
    }
  }

  lemma PathWithin(n: nat, mask1: seq<bool>, mask2: seq<bool>, path: seq<Pos>)
    requires Within(mask1, mask2) && IsPath(n, mask1, path)
    ensures IsPath(n, mask2, path)
  {
    forall i | 0 <= i < |path| ensures Passable(n, mask2, path[i]) {
      assert Passable(n, mask1, path[i]);
    }
  }

  /** Opening more sites never disconnects anything. */
  lemma ConnectsWithin(n: nat, mask1: seq<bool>, mask2: seq<bool>, s: Pos, q: Pos)
    requires Within(mask1, mask2) && Connects(n, mask1, s, q)
    ensures Connects(n, mask2, s, q)
  {
    var path: seq<Pos> :| IsPath(n, mask1, path) && path[0] == s && path[|path| - 1] == q;
    PathWithin(n, mask1, mask2, path);
  }

  lemma ReachTopWithin(n: nat, mask1: seq<bool>, mask2: seq<bool>, q: Pos)
    requires Within(mask1, mask2) && ReachTop(n, mask1, q)
    ensures ReachTop(n, mask2, q)
  {
    var path: seq<Pos> :| IsPath(n, mask1, path) && path[0].row == 0 && path[|path| - 1] == q;
    PathWithin(n, mask1, mask2, path);
  }

  /** A marked set closed under steps to passable neighbours contains everything
      connected to one of its members. */
  lemma {:induction false} ClosedContainsConnected(n: nat, mask: seq<bool>, marked: seq<bool>, s: Pos, q: Pos)
    requires |marked| == n * n
    requires forall p: Pos, r: Pos :: Passable(n, marked, p) && Passable(n, mask, r) && Adjacent(p, r) ==> Passable(n, marked, r)
    requires Passable(n, marked, s) && Connects(n, mask, s, q)
    ensures Passable(n, marked, q)
  {
    var path: seq<Pos> :| IsPath(n, mask, path) && path[0] == s && path[|path| - 1] == q;
    var i := 0;
    while i < |path| - 1
      invariant 0 <= i < |path|
      invariant Passable(n, marked, path[i])
    {
      assert Adjacent(path[i], path[i + 1]);
      assert Passable(n, mask, path[i + 1]);
      i := i + 1;
    }
  }

  /** A marked set closed under steps that holds every passable top-row site
      holds every site reachable from the top. */
  lemma ClosedContainsReachTop(n: nat, mask: seq<bool>, marked: seq<bool>, q: Pos)
    requires |marked| == n * n
    requires forall p: Pos, r: Pos :: Passable(n, marked, p) && Passable(n, mask, r) && Adjacent(p, r) ==> Passable(n, marked, r)
    requires forall c :: 0 <= c < n && Passable(n, mask, Pos(0, c)) ==> Passable(n, marked, Pos(0, c))
    requires ReachTop(n, mask, q)
    ensures Passable(n, marked, q)
  {
    var path: seq<Pos> :| IsPath(n, mask, path) && path[0].row == 0 && path[|path| - 1] == q;
    var s := path[0];
    assert Passable(n, mask, Pos(0, s.col));
    assert Connects(n, mask, s, q);
    ClosedContainsConnected(n, mask, marked, s, q);
  }
}

/** Counting the true entries of a mask: the number of open sites, or of sites
    still waiting to be filled. */
module Counting {

  function CountTrue(m: seq<bool>): nat {
    if |m| == 0 then 0 else (if m[0] then 1 else 0) + CountTrue(m[1..])
  }

  /** Flipping one entry changes the count by exactly that entry. */
  lemma {:induction false} CountUpdate(m: seq<bool>, i: int, b: bool)
    requires 0 <= i < |m|
    ensures CountTrue(m[i := b]) == CountTrue(m) - (if m[i] then 1 else 0) + (if b then 1 else 0)
  {
    if i == 0 {
      assert m[i := b][1..] == m[1..];
    } else {
      assert m[i := b][1..] == m[1..][i - 1 := b];
      CountUpdate(m[1..], i - 1, b);
    }
  }

  lemma {:induction false} CountNone(m: seq<bool>)
    requires forall i :: 0 <= i < |m| ==> !m[i]
    ensures CountTrue(m) == 0
  {
    if |m| > 0 {
      assert forall i :: 0 <= i < |m| - 1 ==> !m[1..][i] by {
        forall i | 0 <= i < |m| - 1 ensures !m[1..][i] {
          assert !m[i + 1];
        }
      }
      CountNone(m[1..]);
    }
  }

  /** A mask that is pointwise below another has no larger count. */
  lemma {:induction false} CountMonotone(m1: seq<bool>, m2: seq<bool>)
    requires |m1| == |m2| && forall i :: 0 <= i < |m1| && m1[i] ==> m2[i]
    ensures CountTrue(m1) <= CountTrue(m2)
  {
    if |m1| > 0 {
      assert forall i :: 0 <= i < |m1| - 1 && m1[1..][i] ==> m2[1..][i] by {
        forall i | 0 <= i < |m1| - 1 && m1[1..][i] ensures m2[1..][i] {
          assert m1[i + 1];
        }
      }
      CountMonotone(m1[1..], m2[1..]);
    }
  }
}
