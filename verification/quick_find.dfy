/** The disjoint-set collaborator of the union-find engine, as a quick-find
    component-id array, with the ghost meaning of its state: two elements share
    an id exactly when the unions performed so far join them. */
module QuickFind {

  datatype UnionFind = UnionFind(id: seq<int>)

  /** connected(p, q): p and q are in one component. */
  predicate Connected(u: UnionFind, p: int, q: int)
    requires 0 <= p < |u.id| && 0 <= q < |u.id|
  {
    u.id[p] == u.id[q]
  }

  /** initialize(n): n singleton components over [0, n). */
  function Initialize(n: nat): (u: UnionFind)
    ensures |u.id| == n
    ensures forall x, y :: 0 <= x < n && 0 <= y < n ==> (Connected(u, x, y) <==> x == y)
  {
    UnionFind(seq(n, i => i))
  }

  /** union(p, q): the components of p and q merge; no other pair changes. */
  function Union(u: UnionFind, p: int, q: int): (u': UnionFind)
    requires 0 <= p < |u.id| && 0 <= q < |u.id|
    ensures |u'.id| == |u.id|
    ensures forall x, y :: 0 <= x < |u.id| && 0 <= y < |u.id| ==>
      (Connected(u', x, y) <==>
        Connected(u, x, y) || (Connected(u, x, p) && Connected(u, q, y)) || (Connected(u, x, q) && Connected(u, p, y)))
  {
    var pid, qid := u.id[p], u.id[q];
    UnionFind(seq(|u.id|, i requires 0 <= i < |u.id| => if u.id[i] == pid then qid else u.id[i]))
  }

  /** An undirected edge between a and b recorded in E in either orientation. */
  ghost predicate Linked(E: set<(int, int)>, a: int, b: int) {
    (a, b) in E || (b, a) in E
  }

  /** A non-empty sequence of elements, each linked to the next. */
  ghost predicate IsWalk(E: set<(int, int)>, w: seq<int>) {
    |w| > 0 && forall i :: 0 < i < |w| ==> Linked(E, w[i - 1], w[i])
  }

  /** x and y are joined by the edges of E. */
  ghost predicate Joined(E: set<(int, int)>, x: int, y: int) {
    exists w: seq<int> :: IsWalk(E, w) && w[0] == x && w[|w| - 1] == y
  }

  ghost predicate EdgesWithin(E: set<(int, int)>, size: int) {
    forall e :: e in E ==> 0 <= e.0 < size && 0 <= e.1 < size
  }

  /** The partition of u is exactly the connectivity of the unions E. */
  ghost predicate Represents(u: UnionFind, E: set<(int, int)>) {
    && EdgesWithin(E, |u.id|)
    && forall x, y :: 0 <= x < |u.id| && 0 <= y < |u.id| ==> (Connected(u, x, y) <==> Joined(E, x, y))
  }

  lemma JoinedSelf(E: set<(int, int)>, x: int)
    ensures Joined(E, x, x)
  {
    assert IsWalk(E, [x]);
  }

  lemma JoinedStep(E: set<(int, int)>, x: int, y: int, z: int)
    requires Joined(E, x, y) && Linked(E, y, z)
    ensures Joined(E, x, z)
  {
    var w: seq<int> :| IsWalk(E, w) && w[0] == x && w[|w| - 1] == y;
    var w' := w + [z];
    forall i | 0 < i < |w'|
      ensures Linked(E, w'[i - 1], w'[i])
    {
      if i < |w| {
        assert w'[i - 1] == w[i - 1] && w'[i] == w[i];
      }
    }
    assert IsWalk(E, w');
    assert w'[|w'| - 1] == z;
  }

  lemma {:induction false} JoinedTrans(E: set<(int, int)>, x: int, y: int, z: int)
    requires Joined(E, x, y) && Joined(E, y, z)
    ensures Joined(E, x, z)
  {
    var w: seq<int> :| IsWalk(E, w) && w[0] == y && w[|w| - 1] == z;
    var i := 0;
    while i < |w| - 1
      invariant 0 <= i < |w|
      invariant Joined(E, x, w[i])
    {
      JoinedStep(E, x, w[i], w[i + 1]);
      i := i + 1;
    }
  }

  lemma JoinedSym(E: set<(int, int)>, x: int, y: int)
    requires Joined(E, x, y)
    ensures Joined(E, y, x)
  {
    var w: seq<int> :| IsWalk(E, w) && w[0] == x && w[|w| - 1] == y;
    var r := seq(|w|, i requires 0 <= i < |w| => w[|w| - 1 - i]);
    forall i | 0 < i < |r|
      ensures Linked(E, r[i - 1], r[i])
    {
      assert Linked(E, w[|w| - 1 - i], w[|w| - i]);
    }
    assert IsWalk(E, r);
  }

  /** Every edge of E1 is an edge of E2: whatever E1 joins, E2 joins. */
  lemma JoinedSub(E1: set<(int, int)>, E2: set<(int, int)>, x: int, y: int)
    requires forall e :: e in E1 ==> Linked(E2, e.0, e.1)
    requires Joined(E1, x, y)
    ensures Joined(E2, x, y)
  {
    var w: seq<int> :| IsWalk(E1, w) && w[0] == x && w[|w| - 1] == y;
    forall i | 0 < i < |w|
      ensures Linked(E2, w[i - 1], w[i])
    {
      if (w[i - 1], w[i]) in E1 {
        assert Linked(E2, (w[i - 1], w[i]).0, (w[i - 1], w[i]).1);
      } else {
        assert Linked(E2, (w[i], w[i - 1]).0, (w[i], w[i - 1]).1);
      }
    }
    assert IsWalk(E2, w);
  }

  /** A fresh structure represents no unions at all. */
  lemma InitializeRepresents(n: nat)
    ensures Represents(Initialize(n), {})
  {
    var u := Initialize(n);
    forall x, y | 0 <= x < n && 0 <= y < n
      ensures Connected(u, x, y) <==> Joined({}, x, y)
    {
      if x == y {
        JoinedSelf({}, x);
      }
      if Joined({}, x, y) {
        var w: seq<int> :| IsWalk({}, w) && w[0] == x && w[|w| - 1] == y;
        assert |w| > 1 ==> Linked({}, w[0], w[1]);
        assert |w| == 1;
      }
    }
  }

  /** union(p, q) represents the unions so far plus the edge (p, q): connected
      reflects every prior union exactly. */
  lemma UnionRepresents(u: UnionFind, E: set<(int, int)>, p: int, q: int)
    requires Represents(u, E) && 0 <= p < |u.id| && 0 <= q < |u.id|
    ensures Represents(Union(u, p, q), E + {(p, q)})
  {
    var u' := Union(u, p, q);
    var E' := E + {(p, q)};
    var N := |u.id|;
    forall e | e in E ensures Linked(E', e.0, e.1) { }
    forall x, y | 0 <= x < N && 0 <= y < N && Connected(u', x, y)
      ensures Joined(E', x, y)
    {
      assert Linked(E', p, q) && Linked(E', q, p);
      if Connected(u, x, y) {
        JoinedSub(E, E', x, y);
      } else if Connected(u, x, p) && Connected(u, q, y) {
        JoinedSub(E, E', x, p);
        JoinedStep(E', x, p, q);
        JoinedSub(E, E', q, y);
        JoinedTrans(E', x, q, y);
      } else {
        JoinedSub(E, E', x, q);
        JoinedStep(E', x, q, p);
        JoinedSub(E, E', p, y);
        JoinedTrans(E', x, p, y);
      }
    }
    forall x, y | 0 <= x < N && 0 <= y < N && Joined(E', x, y)
      ensures Connected(u', x, y)
    {
      var w: seq<int> :| IsWalk(E', w) && w[0] == x && w[|w| - 1] == y;
      var i := 0;
      while i < |w| - 1
        invariant 0 <= i < |w|
        invariant 0 <= w[i] < N && Connected(u', x, w[i])
      {
        var a, b := w[i], w[i + 1];
        assert Linked(E', a, b);
        if (a, b) in E || (b, a) in E {
          assert 0 <= b < N;
          assert IsWalk(E, [a, b]);
          assert Joined(E, a, b);
        }
        i := i + 1;
      }
    }
  }

  /** Two edge sets with the same undirected edges are represented alike. */
  lemma RepresentsSameLinks(u: UnionFind, E1: set<(int, int)>, E2: set<(int, int)>)
    requires Represents(u, E1) && EdgesWithin(E2, |u.id|)
    requires forall e :: e in E1 ==> Linked(E2, e.0, e.1)
    requires forall e :: e in E2 ==> Linked(E1, e.0, e.1)
    ensures Represents(u, E2)
  {
    forall x, y | 0 <= x < |u.id| && 0 <= y < |u.id|
      ensures Connected(u, x, y) <==> Joined(E2, x, y)
    {
      if Joined(E1, x, y) {
        JoinedSub(E1, E2, x, y);
      }
      if Joined(E2, x, y) {
        JoinedSub(E2, E1, x, y);
      }
    }
  }
}
