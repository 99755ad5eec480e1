/** Directed graphs, walks, and depth-first search. */
module Walks {
  /** A graph maps nodes to the set of their immediate successors. */
  type Edges<T> = map<T, set<T>>

  function Succ<T(!new)>(g: Edges<T>, n: T): set<T> {
    if n in g then g[n] else {}
  }

  ghost predicate Closed<T(!new)>(g: Edges<T>) {
    forall n, e :: n in g && e in g[n] ==> e in g
  }

  ghost predicate Walk<T(!new)>(g: Edges<T>, p: seq<T>) {
    p != [] && forall k :: 0 <= k < |p| - 1 ==> p[k + 1] in Succ(g, p[k])
  }

  ghost predicate Between<T(!new)>(g: Edges<T>, p: seq<T>, a: T, b: T) {
    Walk(g, p) && p[0] == a && p[|p| - 1] == b
  }

  ghost predicate Reaches<T(!new)>(g: Edges<T>, a: T, b: T) {
    exists p :: Between(g, p, a, b)
  }

  ghost predicate Mutual<T(!new)>(g: Edges<T>, a: T, b: T) {
    Reaches(g, a, b) && Reaches(g, b, a)
  }

  lemma ReachesSelf<T(!new)>(g: Edges<T>, a: T)
    ensures Reaches(g, a, a)
  {
    assert Between(g, [a], a, a);
  }

  lemma ReachesTwice<T(!new)>(g: Edges<T>, a: T, b: T, c: T)
    requires Reaches(g, a, b) && Reaches(g, b, c)
    ensures Reaches(g, a, c)
  {
    var p :| Between(g, p, a, b);
    var q :| Between(g, q, b, c);
    var r := p + q[1..];
    forall k | 0 <= k < |r| - 1
      ensures r[k + 1] in Succ(g, r[k])
    {
      if k >= |p| - 1 {
        assert r[k] == q[k - (|p| - 1)] && r[k + 1] == q[k - (|p| - 1) + 1];
      }
    }
    assert Between(g, r, a, c);
  }

  lemma ReachesStep<T(!new)>(g: Edges<T>, a: T, b: T)
    requires b in Succ(g, a)
    ensures Reaches(g, a, b)
  {
    assert Between(g, [a, b], a, b);
  }

  /** A walk that starts in a set and ends outside it leaves it by some edge. */
  lemma {:induction false} Leaves<T(!new)>(g: Edges<T>, p: seq<T>, inside: set<T>) returns (k: nat)
    requires Walk(g, p) && p[0] in inside && p[|p| - 1] !in inside
    ensures k + 1 < |p| && p[k] in inside && p[k + 1] !in inside && p[k + 1] in Succ(g, p[k])
  {
    if p[1] !in inside {
      k := 0;
    } else {
      var j := Leaves(g, p[1..], inside);
      k := j + 1;
    }
  }

  lemma WalkPart<T(!new)>(g: Edges<T>, p: seq<T>, i: nat, j: nat)
    requires Walk(g, p) && i <= j < |p|
    ensures Reaches(g, p[i], p[j])
  {
    assert Between(g, p[i..j + 1], p[i], p[j]);
  }

  /** A set that is closed under successors holds whatever its members reach. */
  lemma ClosedHolds<T(!new)>(g: Edges<T>, inside: set<T>, a: T, b: T)
    requires (forall x, y :: x in inside && y in Succ(g, x) ==> y in inside) && a in inside && Reaches(g, a, b)
    ensures b in inside
  {
    if b !in inside {
      var p :| Between(g, p, a, b);
      var k := Leaves(g, p, inside);
    }
  }

  // ------------------------------------------------------------------ transposition

  ghost predicate Reversed<T(!new)>(g: Edges<T>, r: Edges<T>) {
    r.Keys == g.Keys && forall a, b :: a in g && b in g ==> (a in r[b] <==> b in g[a])
  }

  lemma {:induction false} ReverseWalk<T(!new)>(g: Edges<T>, r: Edges<T>, p: seq<T>) returns (q: seq<T>)
    requires Closed(g) && Closed(r) && Reversed(g, r) && Walk(g, p) && p[0] in g
    ensures Between(r, q, p[|p| - 1], p[0])
  {
    if |p| == 1 {
      q := p;
    } else {
      assert p[1] in Succ(g, p[0]);
      var s := ReverseWalk(g, r, p[1..]);
      q := s + [p[0]];
      forall k | 0 <= k < |q| - 1
        ensures q[k + 1] in Succ(r, q[k])
      {
        assert k == |s| - 1 ==> p[0] in r[p[1]];
      }
    }
  }

  lemma ReverseReaches<T(!new)>(g: Edges<T>, r: Edges<T>, a: T, b: T)
    requires Closed(g) && Closed(r) && Reversed(g, r) && a in g && Reaches(g, a, b)
    ensures Reaches(r, b, a)
  {
    var p :| Between(g, p, a, b);
    var q := ReverseWalk(g, r, p);
  }

  // ------------------------------------------------------------------ searches

  /** What a search from node adds: the node, things it reaches, all their successors. */
  ghost predicate Searched<T(!new)>(g: Edges<T>, seen: set<T>, node: T, seen': set<T>) {
    && seen <= seen' && node in seen'
    && (forall x :: x in seen' && x !in seen ==> Reaches(g, node, x))
    && forall x, y :: x in seen' && x !in seen && y in Succ(g, x) ==> y in seen'
  }

  /** The search in progress: node is seen, its first successors have been searched. */
  ghost predicate Searching<T(!new)>(g: Edges<T>, seen: set<T>, node: T, todo: set<T>, seen': set<T>) {
    && seen + {node} <= seen' && (forall x :: x in seen' && x !in seen ==> Reaches(g, node, x))
    && (forall x, y :: x in seen' && x !in seen && x != node && y in Succ(g, x) ==> y in seen')
    && forall y :: y in Succ(g, node) && y !in todo ==> y in seen'
  }

  lemma SearchOne<T(!new)>(g: Edges<T>, seen: set<T>, node: T, todo: set<T>, e: T, mid: set<T>, seen': set<T>)
    requires Searching(g, seen, node, todo, mid) && e in Succ(g, node) && Searched(g, mid, e, seen')
    ensures Searching(g, seen, node, todo - {e}, seen')
  {
    ReachesStep(g, node, e);
    forall x | x in seen' && x !in mid
      ensures Reaches(g, node, x)
    {
      ReachesTwice(g, node, e, x);
    }
  }

  lemma SearchStart<T(!new)>(g: Edges<T>, seen: set<T>, node: T)
    requires node !in seen
    ensures Searching(g, seen, node, Succ(g, node), seen + {node})
  {
    ReachesSelf(g, node);
  }

  lemma SearchDone<T(!new)>(g: Edges<T>, seen: set<T>, node: T, seen': set<T>)
    requires Searching(g, seen, node, {}, seen')
    ensures Searched(g, seen, node, seen')
  {
  }

  lemma SearchNothing<T(!new)>(g: Edges<T>, seen: set<T>, node: T)
    requires node in seen
    ensures Searched(g, seen, node, seen)
  {
  }

  lemma SearchGrows<T(!new)>(g: Edges<T>, seen: set<T>, node: T, seen': set<T>)
    requires Searched(g, seen, node, seen')
    ensures seen <= seen' && node in seen'
  {
  }

  lemma SearchWider<T(!new)>(g: Edges<T>, seen: set<T>, node: T, todo: set<T>, seen': set<T>, todo': set<T>)
    requires Searching(g, seen, node, todo, seen') && todo <= todo'
    ensures Searching(g, seen, node, todo', seen')
  {
  }
}
