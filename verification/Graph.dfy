/** Directed graphs: walks, reachability, and the ordering a depth-first search leaves behind. */
module Graph {
  import opened Basics

  type Arcs<K> = map<K, set<K>>

  ghost predicate Walk<K>(g: Arcs<K>, p: seq<K>) {
    p != [] && forall i {:trigger p[i]} :: 0 <= i < |p| - 1 ==> p[i] in g && p[i + 1] in g[p[i]]
  }

  ghost predicate WalkFrom<K>(g: Arcs<K>, roots: set<K>, p: seq<K>) {
    Walk(g, p) && p[0] in roots
  }

  lemma WalkContinues<K>(g: Arcs<K>, roots: set<K>, p: seq<K>, next: K)
    requires WalkFrom(g, roots, p) && p[|p| - 1] in g && next in g[p[|p| - 1]]
    ensures WalkFrom(g, roots, p + [next])
  {
  }

  ghost predicate Reaches<K(!new)>(g: Arcs<K>, roots: set<K>, x: K) {
    exists p :: WalkFrom(g, roots, p) && p[|p| - 1] == x
  }

  /** Every node some root reaches is a node of the graph. */
  ghost predicate ClosedFrom<K(!new)>(g: Arcs<K>, roots: set<K>) {
    forall p :: WalkFrom(g, roots, p) ==> p[|p| - 1] in g
  }

  /** No walk from a root comes back to a node it has passed. */
  ghost predicate AcyclicFrom<K(!new)>(g: Arcs<K>, roots: set<K>) {
    forall p :: WalkFrom(g, roots, p) ==> Distinct(p)
  }

  /** Each node comes after everything it points to: the finishing order of a search. */
  ghost predicate Ordered<K(!new)>(g: Arcs<K>, order: seq<K>) {
    && Distinct(order)
    && forall i :: 0 <= i < |order| ==> order[i] in g && forall d :: d in g[order[i]] ==> d in order[..i]
  }

  ghost function Position<K(!new)>(order: seq<K>, x: K): (k: nat)
    requires x in order
    ensures k < |order| && order[k] == x
  {
    var k :| 0 <= k < |order| && order[k] == x;
    k
  }

  lemma ArcsGoDown<K(!new)>(g: Arcs<K>, order: seq<K>, x: K, y: K)
    requires Ordered(g, order) && x in order && x in g && y in g[x]
    ensures y in order && Position(order, y) < Position(order, x)
  {
    var k := Position(order, x);
    assert y in order[..k];
    var i :| 0 <= i < k && order[i] == y;
  }

  /** Along a walk the positions in the order go down. */
  lemma {:induction false} WalkDescends<K(!new)>(g: Arcs<K>, order: seq<K>, p: seq<K>, i: nat, j: nat)
    requires Ordered(g, order) && Walk(g, p) && i < j < |p| && p[i] in order
    ensures p[j] in order && Position(order, p[j]) < Position(order, p[i])
    decreases j
  {
    hide Ordered;
    hide Position;
    if i + 1 < j {
      WalkDescends(g, order, p, i, j - 1);
    }
    ArcsGoDown(g, order, p[j - 1], p[j]);
  }

  lemma WalksOnce<K(!new)>(g: Arcs<K>, order: seq<K>, p: seq<K>)
    requires Ordered(g, order) && Walk(g, p) && p[0] in order
    ensures p[|p| - 1] in order && p[|p| - 1] in g && Distinct(p)
  {
    if |p| > 1 {
      WalkDescends(g, order, p, 0, |p| - 1);
    }
    forall i, j | 0 <= i < j < |p| ensures p[i] != p[j] {
      if i > 0 {
        WalkDescends(g, order, p, 0, i);
      }
      WalkDescends(g, order, p, i, j);
    }
    assert order[Position(order, p[|p| - 1])] in g;
  }

  /** A finishing order that holds the roots shows that all they reach is in the graph and free of cycles. */
  lemma OrderedIsWellFounded<K(!new)>(g: Arcs<K>, roots: set<K>, order: seq<K>)
    requires Ordered(g, order) && forall r :: r in roots ==> r in order
    ensures ClosedFrom(g, roots) && AcyclicFrom(g, roots)
    ensures forall x :: Reaches(g, roots, x) ==> x in order
  {
    forall p | WalkFrom(g, roots, p) ensures p[|p| - 1] in order && p[|p| - 1] in g && Distinct(p) {
      WalksOnce(g, order, p);
    }
  }

  lemma OrderedGrows<K(!new)>(g: Arcs<K>, order: seq<K>, x: K)
    requires Ordered(g, order) && x in g && x !in order && forall d :: d in g[x] ==> d in order
    ensures Ordered(g, order + [x])
  {
    var longer := order + [x];
    forall i | 0 <= i < |longer| ensures longer[i] in g && forall d :: d in g[longer[i]] ==> d in longer[..i] {
      assert longer[..i] == order[..i];
    }
  }

  lemma WalkTail<K>(g: Arcs<K>, p: seq<K>)
    requires Walk(g, p) && |p| > 1
    ensures p[0] in g && p[1] in g[p[0]] && Walk(g, p[1..])
  {
    forall i | 0 <= i < |p[1..]| - 1 ensures p[1..][i] in g && p[1..][i + 1] in g[p[1..][i]] {
      assert p[1..][i] == p[i + 1];
    }
  }

  lemma WalkCons<K>(g: Arcs<K>, x: K, w: seq<K>)
    requires Walk(g, w) && x in g && w[0] in g[x]
    ensures Walk(g, [x] + w)
  {
  }

  lemma Revisits<K(!new)>(g: Arcs<K>, roots: set<K>, trail: seq<K>, x: K)
    requires WalkFrom(g, roots, trail + [x]) && x in trail
    ensures !AcyclicFrom(g, roots)
  {
    var path := trail + [x];
    var i :| 0 <= i < |trail| && trail[i] == x;
    assert path[i] == path[|trail|];
    assert !Distinct(path);
  }
}
