/** allpaths of cmd/digraph/digraph.go: which edges it prints, and on which graphs it prints all. */
module AllPaths {
  import opened Walks
  import opened Digraph

  // ---------- what a run computes ----------

  /** For each node, the order in which a range over its successors goes. */
  type Orders = map<Node, seq<Node>>

  ghost predicate Lists(g: Adj, ord: Orders) {
    ord.Keys == g.Keys && forall n :: n in g ==> Distinct(ord[n]) && Members(ord[n]) == g[n]
  }

  function Listed(ord: Orders, n: Node): seq<Node> {
    if n in ord then ord[n] else []
  }

  lemma ListedSuccessors(g: Adj, ord: Orders, n: Node)
    requires Lists(g, ord)
    ensures forall e :: e in Listed(ord, n) <==> e in Succ(g, n)
  {
    if n in g {
      assert forall e :: e in ord[n] <==> e in Members(ord[n]);
    }
  }

  ghost predicate Inside(g: Adj, nodes: set<Node>) {
    forall n, e :: n in nodes && e in Succ(g, n) ==> e in nodes
  }

  /** The nodes visited so far with their marks, and those that are finished, in that order. */
  datatype Marks = Marks(seen: map<Node, bool>, order: seq<Node>)

  /** visit: a node still being visited counts as not reaching the target. */
  ghost function Visited(g: Adj, ord: Orders, to: Node, nodes: set<Node>, node: Node, m: Marks): (r: Marks)
    requires Lists(g, ord) && Inside(g, nodes) && node in nodes && m.seen.Keys <= nodes
    ensures m.seen.Keys <= r.seen.Keys <= nodes && node in r.seen
    decreases nodes - m.seen.Keys, 1, 0
  {
    if node in m.seen then m
    else
      ListedSuccessors(g, ord, node);
      var begun := Marks(m.seen[node := node == to], m.order);
      assert node in nodes - m.seen.Keys && node !in nodes - begun.seen.Keys;
      var (n, reachesTo) := VisitedSons(g, ord, to, nodes, Listed(ord, node), node == to, begun);
      Marks(n.seen[node := reachesTo], n.order + [node])
  }

  ghost function VisitedSons(g: Adj, ord: Orders, to: Node, nodes: set<Node>, sons: seq<Node>, reachesTo: bool,
                             m: Marks)
      : (r: (Marks, bool))
    requires Lists(g, ord) && Inside(g, nodes) && (forall e :: e in sons ==> e in nodes) && m.seen.Keys <= nodes
    ensures m.seen.Keys <= r.0.seen.Keys <= nodes
    decreases nodes - m.seen.Keys, 2, |sons|
  {
    if sons == [] then (m, reachesTo)
    else
      assert sons[0] in sons;
      var n := Visited(g, ord, to, nodes, sons[0], m);
      VisitedSons(g, ord, to, nodes, sons[1..], reachesTo || n.seen[sons[0]], n)
  }

  ghost function Printed(g: Adj, m: Marks): set<(Node, Node)> {
    set n, s | n in m.seen && s in Succ(g, n) && s in m.seen && m.seen[s] :: (n, s)
  }

  const NO_MARKS := Marks(map[], [])

  ghost function Universe(g: Adj, from: Node): set<Node> {
    g.Keys + {from}
  }

  lemma UniverseInside(g: Adj, from: Node)
    requires Closed(g)
    ensures Inside(g, Universe(g, from))
  {
  }

  ghost function RunFrom(g: Adj, ord: Orders, from: Node, to: Node): Marks
    requires Closed(g) && Lists(g, ord)
  {
    UniverseInside(g, from);
    Visited(g, ord, to, Universe(g, from), from, NO_MARKS)
  }

  ghost predicate KeepsMarks(was: map<Node, bool>, seen: map<Node, bool>) {
    forall x :: x in was ==> x in seen && seen[x] == was[x]
  }

  /** A visit changes no mark that is there, and finishes only nodes it has newly found. */
  lemma {:induction false} VisitedKeeps(g: Adj, ord: Orders, to: Node, nodes: set<Node>, node: Node, m: Marks)
    requires Lists(g, ord) && Inside(g, nodes) && node in nodes && m.seen.Keys <= nodes
    ensures var r := Visited(g, ord, to, nodes, node, m);
      && KeepsMarks(m.seen, r.seen) && m.order <= r.order
      && forall x :: x in r.order[|m.order|..] ==> x !in m.seen
    decreases nodes - m.seen.Keys, 1, 0
  {
    hide Lists, Inside, Members;
    if node !in m.seen {
      ListedSuccessors(g, ord, node);
      SonsInside(g, nodes, node);
      var begun := Marks(m.seen[node := node == to], m.order);
      assert node in nodes - m.seen.Keys && node !in nodes - begun.seen.Keys;
      SonsKeep(g, ord, to, nodes, Listed(ord, node), node == to, begun);
    }
  }

  lemma {:induction false} SonsKeep(g: Adj, ord: Orders, to: Node, nodes: set<Node>, sons: seq<Node>, reachesTo: bool,
                                    m: Marks)
    requires Lists(g, ord) && Inside(g, nodes) && (forall e :: e in sons ==> e in nodes) && m.seen.Keys <= nodes
    ensures var r := VisitedSons(g, ord, to, nodes, sons, reachesTo, m).0;
      && KeepsMarks(m.seen, r.seen) && m.order <= r.order
      && forall x :: x in r.order[|m.order|..] ==> x !in m.seen
    decreases nodes - m.seen.Keys, 2, |sons|
  {
    hide Lists, Inside, Members, Visited;
    if sons != [] {
      assert sons[0] in sons;
      VisitedKeeps(g, ord, to, nodes, sons[0], m);
      var n := Visited(g, ord, to, nodes, sons[0], m);
      SonsKeep(g, ord, to, nodes, sons[1..], reachesTo || n.seen[sons[0]], n);
      SuffixSplits(m.order, n.order, VisitedSons(g, ord, to, nodes, sons, reachesTo, m).0.order);
    }
  }

  lemma SuffixSplits(a: seq<Node>, b: seq<Node>, c: seq<Node>)
    requires a <= b <= c
    ensures a <= c && c[|a|..] == b[|a|..] + c[|b|..]
  {
  }

  class Marking {
    const g: Adj
    const ord: Orders
    const to: Node
    var seen: map<Node, bool>
    /** The nodes in the order in which they are finished. */
    ghost var order: seq<Node>

    constructor (g: Adj, ord: Orders, to: Node)
      ensures this.g == g && this.ord == ord && this.to == to && seen == map[] && order == []
    {
      this.g, this.ord, this.to := g, ord, to;
      seen, order := map[], [];
    }

    /** visit: marks node, and says whether it was found to reach the target. */
    method Visit(node: Node, ghost nodes: set<Node>) returns (reachesTo: bool)
      requires Lists(g, ord) && Inside(g, nodes) && node in nodes && seen.Keys <= nodes
      modifies this
      ensures Marks(seen, order) == Visited(g, ord, to, nodes, node, Marks(old(seen), old(order)))
      ensures node in seen && reachesTo == seen[node]
      decreases nodes - seen.Keys
    {
      hide Lists, Inside, Members;
      if node in seen {
        return seen[node];
      }
      ListedSuccessors(g, ord, node);
      SonsInside(g, nodes, node);
      reachesTo := node == to;
      ghost var was := seen;
      seen := seen[node := reachesTo];
      var sons := Listed(ord, node);
      ghost var goal := VisitedSons(g, ord, to, nodes, sons, node == to, Marks(seen, order));
      assert node in nodes - was.Keys && node !in nodes - seen.Keys;
      assert sons[0..] == sons;
      for i := 0 to |sons|
        invariant seen.Keys <= nodes && nodes - seen.Keys < nodes - was.Keys && node in seen
        invariant (seen[node] <==> node == to)
        invariant node == to ==> reachesTo
        invariant goal == VisitedSons(g, ord, to, nodes, sons[i..], reachesTo, Marks(seen, order))
      {
        assert sons[i] in sons && sons[i..][1..] == sons[i + 1..];
        VisitedKeeps(g, ord, to, nodes, sons[i], Marks(seen, order));
        var hit := Visit(sons[i], nodes);
        if hit {
          reachesTo := true;
        }
      }
      assert sons[|sons|..] == [];
      ghost var last := seen;
      if reachesTo && node != to {
        seen := seen[node := true];
      }
      assert seen == last[node := reachesTo];
      order := order + [node];
    }

    /** allpaths: the edges that are printed, as a set. */
    method AllPaths(from: Node) returns (edges: set<(Node, Node)>)
      requires Closed(g) && Lists(g, ord) && seen == map[] && order == []
      modifies this
      ensures edges == Printed(g, RunFrom(g, ord, from, to))
      ensures forall n, s ::
        (n, s) in edges <==> Reaches(g, from, n) && s in Succ(g, n) && s in seen && seen[s]
    {
      hide Lists, Reaches, Visited;
      UniverseInside(g, from);
      RunExact(g, ord, from, to);
      var reaches := Visit(from, Universe(g, from));
      edges := set n, s | n in seen && s in Succ(g, n) && s in seen && seen[s] :: (n, s);
    }
  }

  lemma SonsInside(g: Adj, nodes: set<Node>, node: Node)
    requires Inside(g, nodes) && node in nodes
    ensures forall e :: e in Succ(g, node) ==> e in nodes
  {
  }

  // ---------- what the marks mean ----------

  /** order[k] has a successor that is the target, or was finished before it with a mark. */
  ghost predicate HasMarkedBefore(g: Adj, to: Node, m: Marks, k: nat)
    requires k < |m.order|
  {
    exists e :: e in Succ(g, m.order[k]) && (e == to || (e in m.order[..k] && e in m.seen && m.seen[e]))
  }

  /** A node is marked exactly when it is the target or had such a successor. */
  ghost predicate MarksExact(g: Adj, to: Node, m: Marks) {
    forall k :: 0 <= k < |m.order| ==>
      m.order[k] in m.seen && (m.seen[m.order[k]] <==> m.order[k] == to || HasMarkedBefore(g, to, m, k))
  }

  /** The nodes that were being visited when order[k] was finished: a path to it, which holds
      every successor of finished nodes that was not finished itself. */
  ghost predicate Stack(g: Adj, from: Node, order: seq<Node>, k: nat, path: seq<Node>)
    requires k < |order|
  {
    && Between(g, path, from, order[k]) && Distinct(path)
    && forall e :: e in Succ(g, order[k]) ==> e in order[..k] || e in path
  }

  ghost predicate HasStack(g: Adj, from: Node, order: seq<Node>, k: nat)
    requires k < |order|
  {
    exists path :: Stack(g, from, order, k, path)
  }

  /** path holds the nodes being visited. */
  ghost predicate Visiting(g: Adj, from: Node, to: Node, m: Marks, path: seq<Node>) {
    && Distinct(m.order) && Distinct(path) && (path != [] ==> Walk(g, path) && path[0] == from)
    && (forall x :: x in m.seen <==> x in m.order || x in path) && (forall x :: x in m.order ==> x !in path)
    && (forall x :: x in path ==> (m.seen[x] <==> x == to))
    && (forall x :: x in m.seen ==> Reaches(g, from, x))
    && (forall x, e :: x in m.order && e in Succ(g, x) ==> e in m.seen)
    && MarksExact(g, to, m)
    && (forall k :: 0 <= k < |m.order| ==> HasStack(g, from, m.order, k))
  }

  /** The successors of the last node of the path that have been visited, and what they said. */
  ghost predicate SonsSaid(g: Adj, to: Node, m: Marks, node: Node, done: set<Node>, reachesTo: bool) {
    && (forall e :: e in done ==> e in Succ(g, node) && e in m.seen)
    && (reachesTo <==> node == to || exists e :: e in done && e in m.seen && m.seen[e])
  }

  lemma Begin(g: Adj, from: Node, to: Node, m: Marks, path: seq<Node>, node: Node)
    requires Visiting(g, from, to, m, path) && node !in m.seen
    requires if path == [] then node == from else node in Succ(g, path[|path| - 1])
    ensures Visiting(g, from, to, Marks(m.seen[node := node == to], m.order), path + [node])
  {
    hide HasStack, Reaches, MarksExact, Walk, Distinct;
    var m', path' := Marks(m.seen[node := node == to], m.order), path + [node];
    BeginPath(g, from, path, node);
    BeginMarks(g, to, m, node);
    if path == [] {
      ReachesSelf(g, from);
    } else {
      var last := path[|path| - 1];
      assert last in path;
      ReachesStep(g, last, node);
      ReachesTwice(g, from, last, node);
    }
    assert forall x :: x in path' <==> x in path || x == node;
    assert forall x :: x in m'.seen <==> x in m.seen || x == node;
    assert forall k :: 0 <= k < |m'.order| ==> HasStack(g, from, m'.order, k);
  }

  lemma BeginPath(g: Adj, from: Node, path: seq<Node>, node: Node)
    requires Distinct(path) && (path != [] ==> Walk(g, path) && path[0] == from) && node !in path
    requires if path == [] then node == from else node in Succ(g, path[|path| - 1])
    ensures var path' := path + [node]; Distinct(path') && Walk(g, path') && path'[0] == from
  {
  }

  lemma BeginMarks(g: Adj, to: Node, m: Marks, node: Node)
    requires MarksExact(g, to, m) && node !in m.seen
    ensures MarksExact(g, to, Marks(m.seen[node := node == to], m.order))
  {
    var m' := Marks(m.seen[node := node == to], m.order);
    forall k | 0 <= k < |m.order|
      ensures HasMarkedBefore(g, to, m', k) <==> HasMarkedBefore(g, to, m, k)
    {
      assert forall x :: x in m.order[..k] ==> x in m.order && x != node by {
        OrderSeen(g, to, m);
      }
      SameBefore(g, to, m, m', k);
    }
    OrderSeen(g, to, m);
  }

  lemma OrderSeen(g: Adj, to: Node, m: Marks)
    requires MarksExact(g, to, m)
    ensures forall x :: x in m.order ==> x in m.seen
  {
    hide HasMarkedBefore;
  }

  lemma SameBefore(g: Adj, to: Node, m: Marks, m': Marks, k: nat)
    requires k < |m.order| <= |m'.order| && m'.order[..k + 1] == m.order[..k + 1]
    requires forall x :: x in m.order[..k] ==> x in m.seen && x in m'.seen && m'.seen[x] == m.seen[x]
    ensures HasMarkedBefore(g, to, m', k) <==> HasMarkedBefore(g, to, m, k)
  {
    assert m'.order[..k] == m'.order[..k + 1][..k] && m.order[..k] == m.order[..k + 1][..k];
    assert m'.order[k] == m'.order[..k + 1][k] && m.order[k] == m.order[..k + 1][k];
  }

  /** The node at the end of the path is finished. */
  lemma Finish(g: Adj, from: Node, to: Node, m: Marks, path: seq<Node>, node: Node, reachesTo: bool)
    requires Visiting(g, from, to, m, path + [node]) && SonsSaid(g, to, m, node, Succ(g, node), reachesTo)
    ensures Visiting(g, from, to, Marks(m.seen[node := reachesTo], m.order + [node]), path)
  {
    hide HasStack, Reaches, MarksExact;
    PathEnd(g, from, path, node);
    FinishMarks(g, from, to, m, path, node, reachesTo);
    FinishStacks(g, from, to, m, path, node, reachesTo);
    var all := path + [node];
    assert all[|path|] == node && node in all;
    assert forall x :: x in all <==> x in path || x == node;
  }

  /** The path without its last node. */
  lemma PathEnd(g: Adj, from: Node, path: seq<Node>, node: Node)
    requires Walk(g, path + [node]) && Distinct(path + [node]) && (path + [node])[0] == from
    ensures Distinct(path) && node !in path && (path != [] ==> Walk(g, path) && path[0] == from)
    ensures Between(g, path + [node], from, node)
  {
    var all := path + [node];
    assert all[|path|] == node;
    forall k | 0 <= k < |path|
      ensures all[k] == path[k] != node
    {
    }
    forall k | 0 <= k < |path| - 1
      ensures path[k + 1] in Succ(g, path[k])
    {
      assert all[k + 1] in Succ(g, all[k]);
    }
  }

  lemma FinishMarks(g: Adj, from: Node, to: Node, m: Marks, path: seq<Node>, node: Node, reachesTo: bool)
    requires Visiting(g, from, to, m, path + [node]) && SonsSaid(g, to, m, node, Succ(g, node), reachesTo)
    ensures MarksExact(g, to, Marks(m.seen[node := reachesTo], m.order + [node]))
  {
    hide HasStack, Reaches, HasMarkedBefore, Walk;
    var m' := Marks(m.seen[node := reachesTo], m.order + [node]);
    var n, all := |m.order|, path + [node];
    assert all[|path|] == node && node in all && node !in m.order;
    forall k | 0 <= k < n
      ensures HasMarkedBefore(g, to, m', k) <==> HasMarkedBefore(g, to, m, k)
      ensures m'.order[k] in m.seen && m'.seen[m'.order[k]] == m.seen[m.order[k]]
    {
      assert m'.order[..k + 1] == m.order[..k + 1] && m.order[k] in m.order;
      SameBefore(g, to, m, m', k);
    }
    LastMark(g, to, m, m', node, all);
  }

  lemma FinishStacks(g: Adj, from: Node, to: Node, m: Marks, path: seq<Node>, node: Node, reachesTo: bool)
    requires Visiting(g, from, to, m, path + [node]) && SonsSaid(g, to, m, node, Succ(g, node), reachesTo)
    ensures forall k :: 0 <= k < |m.order + [node]| ==> HasStack(g, from, m.order + [node], k)
  {
    hide HasStack, Reaches, MarksExact;
    var n, all, order' := |m.order|, path + [node], m.order + [node];
    forall k | 0 <= k < n
      ensures HasStack(g, from, order', k)
    {
      assert order'[..k + 1] == m.order[..k + 1];
      SameStack(g, from, m.order, order', k);
    }
    PathEnd(g, from, path, node);
    assert order'[..n] == m.order;
    assert Stack(g, from, order', n, all);
    OwnStack(g, from, order', n, all);
  }

  lemma OwnStack(g: Adj, from: Node, order: seq<Node>, k: nat, path: seq<Node>)
    requires k < |order| && Stack(g, from, order, k, path)
    ensures HasStack(g, from, order, k)
  {
  }

  lemma SameStack(g: Adj, from: Node, order: seq<Node>, order': seq<Node>, k: nat)
    requires k < |order| <= |order'| && order'[..k + 1] == order[..k + 1] && HasStack(g, from, order, k)
    ensures HasStack(g, from, order', k)
  {
    var path :| Stack(g, from, order, k, path);
    assert order'[..k] == order'[..k + 1][..k] && order[..k] == order[..k + 1][..k];
    assert order'[k] == order'[..k + 1][k] && order[k] == order[..k + 1][k];
    assert Stack(g, from, order', k, path);
  }

  /** The mark that a node gets when it is finished. */
  lemma LastMark(g: Adj, to: Node, m: Marks, m': Marks, node: Node, path: seq<Node>)
    requires node in m'.seen && SonsSaid(g, to, m, node, Succ(g, node), m'.seen[node]) && MarksExact(g, to, m)
    requires m' == Marks(m.seen[node := m'.seen[node]], m.order + [node]) && node in m.seen && node !in m.order
    requires forall x :: x in m.seen <==> x in m.order || x in path
    requires forall x :: x in path ==> x in m.seen && (m.seen[x] <==> x == to)
    ensures m'.seen[node] <==> node == to || HasMarkedBefore(g, to, m', |m.order|)
  {
    var n := |m.order|;
    assert m'.order[..n] == m.order && m'.order[n] == node;
    if e :| e in Succ(g, node) && e in m.seen && m.seen[e] {
      assert e == to || e in m.order;
      assert e in m.order ==> m'.seen[e];
    }
    if HasMarkedBefore(g, to, m', n) {
      var e :| e in Succ(g, node) && (e == to || (e in m'.order[..n] && e in m'.seen && m'.seen[e]));
      assert e in m.seen;
      if e in m.order {
        var k :| 0 <= k < n && m.order[k] == e;
        assert e == to ==> m.seen[m.order[k]];
      }
    }
  }

  lemma {:induction false} VisitedExact(g: Adj, ord: Orders, from: Node, to: Node, nodes: set<Node>, node: Node,
                                        m: Marks, path: seq<Node>)
    requires Lists(g, ord) && Inside(g, nodes) && node in nodes && m.seen.Keys <= nodes
    requires Visiting(g, from, to, m, path)
    requires if path == [] then node == from else node in Succ(g, path[|path| - 1])
    ensures Visiting(g, from, to, Visited(g, ord, to, nodes, node, m), path)
    decreases nodes - m.seen.Keys, 1, 0
  {
    hide Lists, Inside, Members, Visiting, SonsSaid, Walk;
    if node !in m.seen {
      ListedSuccessors(g, ord, node);
      SonsInside(g, nodes, node);
      Begin(g, from, to, m, path, node);
      var begun := Marks(m.seen[node := node == to], m.order);
      assert node in nodes - m.seen.Keys && node !in nodes - begun.seen.Keys;
      NothingSaid(g, to, begun, node);
      SonsExact(g, ord, from, to, nodes, Listed(ord, node), node == to, begun, path, node, {});
      var (n, reachesTo) := VisitedSons(g, ord, to, nodes, Listed(ord, node), node == to, begun);
      assert {} + (set e | e in Listed(ord, node)) == Succ(g, node);
      Finish(g, from, to, n, path, node, reachesTo);
    }
  }

  lemma NothingSaid(g: Adj, to: Node, m: Marks, node: Node)
    ensures SonsSaid(g, to, m, node, {}, node == to)
  {
  }

  lemma {:induction false} SonsExact(g: Adj, ord: Orders, from: Node, to: Node, nodes: set<Node>, sons: seq<Node>,
                                     reachesTo: bool, m: Marks, path: seq<Node>, node: Node, done: set<Node>)
    requires Lists(g, ord) && Inside(g, nodes) && (forall e :: e in sons ==> e in nodes && e in Succ(g, node))
    requires m.seen.Keys <= nodes && Visiting(g, from, to, m, path + [node])
    requires SonsSaid(g, to, m, node, done, reachesTo)
    ensures var r := VisitedSons(g, ord, to, nodes, sons, reachesTo, m);
      && Visiting(g, from, to, r.0, path + [node])
      && SonsSaid(g, to, r.0, node, done + (set e | e in sons), r.1)
    decreases nodes - m.seen.Keys, 2, |sons|
  {
    hide Lists, Inside, Members, Visiting, SonsSaid, Walk;
    if sons == [] {
      assert done + (set e | e in sons) == done;
    } else {
      var e := sons[0];
      assert e in sons && (path + [node])[|path|] == node;
      VisitedExact(g, ord, from, to, nodes, e, m, path + [node]);
      VisitedKeeps(g, ord, to, nodes, e, m);
      var n := Visited(g, ord, to, nodes, e, m);
      OneSaid(g, to, m, n, node, done, reachesTo, e);
      SonsExact(g, ord, from, to, nodes, sons[1..], reachesTo || n.seen[e], n, path, node, done + {e});
      assert done + {e} + (set x | x in sons[1..]) == done + (set x | x in sons);
    }
  }

  lemma OneSaid(g: Adj, to: Node, m: Marks, n: Marks, node: Node, done: set<Node>, reachesTo: bool, e: Node)
    requires SonsSaid(g, to, m, node, done, reachesTo) && KeepsMarks(m.seen, n.seen) && e in Succ(g, node)
    requires e in n.seen
    ensures SonsSaid(g, to, n, node, done + {e}, reachesTo || n.seen[e])
  {
    if x :| x in done && x in m.seen && m.seen[x] {
      assert n.seen[x];
    }
  }

  lemma NothingVisited(g: Adj, from: Node, to: Node)
    ensures Visiting(g, from, to, NO_MARKS, [])
  {
  }

  /** What is known of the marks of every run: each node that is reached is finished, marked
      exactly when it was found to reach the target, and finished with a stack. */
  lemma RunExact(g: Adj, ord: Orders, from: Node, to: Node)
    requires Closed(g) && Lists(g, ord)
    ensures var m := RunFrom(g, ord, from, to);
      && Visiting(g, from, to, m, []) && MarksExact(g, to, m) && from in m.seen
      && (forall x :: x in m.seen <==> x in m.order) && (forall x :: x in m.seen <==> Reaches(g, from, x))
  {
    hide Inside, Lists, HasStack, MarksExact, Reaches;
    UniverseInside(g, from);
    NothingVisited(g, from, to);
    VisitedExact(g, ord, from, to, Universe(g, from), from, NO_MARKS, []);
    var m := RunFrom(g, ord, from, to);
    forall x | Reaches(g, from, x)
      ensures x in m.seen
    {
      AllFound(g, from, to, m, x);
    }
  }

  lemma AllFound(g: Adj, from: Node, to: Node, m: Marks, x: Node)
    requires Visiting(g, from, to, m, []) && from in m.seen && Reaches(g, from, x)
    ensures x in m.seen
  {
    hide MarksExact, Reaches;
    ClosedHolds(g, m.seen.Keys, from, x);
  }

  // ---------- when every edge is printed ----------

  /** The edge from n to s lies on a walk from one node to the other. */
  ghost predicate OnWalk(g: Adj, from: Node, to: Node, n: Node, s: Node) {
    Reaches(g, from, n) && s in Succ(g, n) && Reaches(g, s, to)
  }

  ghost predicate Complete(g: Adj, from: Node, to: Node, edges: set<(Node, Node)>) {
    forall n, s :: OnWalk(g, from, to, n, s) ==> (n, s) in edges
  }

  /** The path runs into a node that can get to the target, but only by going back to the path. */
  ghost predicate Trap(g: Adj, from: Node, to: Node, path: seq<Node>) {
    && Walk(g, path) && Distinct(path) && path[0] == from
    && var u := path[|path| - 1];
    && u != to && Reaches(g, u, to)
    && forall e :: e in Succ(g, u) && Reaches(g, e, to) ==> e in path && e != to
  }

  ghost predicate Trapped(g: Adj, from: Node, to: Node) {
    exists path :: Trap(g, from, to, path)
  }

  /** A marked node does reach the target. */
  lemma {:induction false} MarkedReaches(g: Adj, from: Node, to: Node, m: Marks, k: nat)
    requires Visiting(g, from, to, m, []) && k < |m.order| && m.seen[m.order[k]]
    ensures Reaches(g, m.order[k], to)
  {
    hide Reaches, HasStack;
    var u := m.order[k];
    if u == to {
      ReachesSelf(g, to);
    } else {
      assert HasMarkedBefore(g, to, m, k);
      var e :| e in Succ(g, u) && (e == to || (e in m.order[..k] && e in m.seen && m.seen[e]));
      if e == to {
        ReachesSelf(g, to);
      } else {
        var j :| 0 <= j < k && m.order[..k][j] == e;
        MarkedReaches(g, from, to, m, j);
      }
      ReachesStep(g, u, e);
      ReachesTwice(g, u, e, to);
    }
  }

  /** Without a trap every node that can be marked is: the first that is not would be at the end of
      a trap, its stack. */
  lemma {:induction false} UntrappedMarked(g: Adj, from: Node, to: Node, m: Marks, k: nat)
    requires Visiting(g, from, to, m, []) && !Trapped(g, from, to) && k < |m.order| && Reaches(g, m.order[k], to)
    ensures m.seen[m.order[k]]
  {
    hide Reaches;
    var u := m.order[k];
    if u != to {
      assert HasStack(g, from, m.order, k);
      var path :| Stack(g, from, m.order, k, path);
      assert !Trap(g, from, to, path);
      var e :| e in Succ(g, u) && Reaches(g, e, to) && (e !in path || e == to);
      if e != to {
        var j :| 0 <= j < k && m.order[..k][j] == e;
        UntrappedMarked(g, from, to, m, j);
      }
      assert HasMarkedBefore(g, to, m, k);
    }
  }

  /** Printed is every edge from a node that was found, marked itself or not, to a marked one. */
  lemma PrintedExactly(g: Adj, ord: Orders, from: Node, to: Node, n: Node, s: Node)
    requires Closed(g) && Lists(g, ord)
    ensures var m := RunFrom(g, ord, from, to);
      (n, s) in Printed(g, m) <==> Reaches(g, from, n) && s in Succ(g, n) && s in m.seen && m.seen[s]
  {
    hide Reaches, Visiting, Lists, MarksExact, RunFrom;
    RunExact(g, ord, from, to);
  }

  /** Every printed edge lies on a walk to the target; without a trap all those edges are printed. */
  lemma PrintedEdges(g: Adj, ord: Orders, from: Node, to: Node)
    requires Closed(g) && Lists(g, ord)
    ensures forall n, s :: (n, s) in Printed(g, RunFrom(g, ord, from, to)) ==> OnWalk(g, from, to, n, s)
    ensures !Trapped(g, from, to) ==> Complete(g, from, to, Printed(g, RunFrom(g, ord, from, to)))
  {
    hide Reaches, Visiting, Lists, MarksExact, RunFrom;
    RunExact(g, ord, from, to);
    var m := RunFrom(g, ord, from, to);
    forall n, s | (n, s) in Printed(g, m)
      ensures OnWalk(g, from, to, n, s)
    {
      var k :| 0 <= k < |m.order| && m.order[k] == s;
      MarkedReaches(g, from, to, m, k);
    }
    if !Trapped(g, from, to) {
      forall n, s | OnWalk(g, from, to, n, s)
        ensures (n, s) in Printed(g, m)
      {
        ReachesStep(g, n, s);
        ReachesTwice(g, from, n, s);
        var k :| 0 <= k < |m.order| && m.order[k] == s;
        UntrappedMarked(g, from, to, m, k);
      }
    }
  }

  // ---------- a trap loses an edge, in some order ----------

  /** The successors of a path's nodes are listed with the next node of the path first. */
  ghost predicate Follows(ord: Orders, path: seq<Node>) {
    forall i :: 0 <= i < |path| - 1 ==> Listed(ord, path[i]) != [] && Listed(ord, path[i])[0] == path[i + 1]
  }

  ghost function Listing(s: set<Node>): (r: seq<Node>)
    ensures Distinct(r) && Members(r) == s
  {
    if s == {} then []
    else
      var x :| x in s;
      var r := Listing(s - {x});
      assert x !in Members(r);
      assert Members([x] + r) == {x} + Members(r);
      [x] + r
  }

  ghost function ListingFrom(s: set<Node>, first: Node): (r: seq<Node>)
    requires first in s
    ensures Distinct(r) && Members(r) == s && r[0] == first
  {
    var r := Listing(s - {first});
    assert first !in Members(r);
    assert Members([first] + r) == {first} + Members(r);
    [first] + r
  }

  ghost function Along(g: Adj, path: seq<Node>, n: Node): (r: seq<Node>)
    requires n in g && Walk(g, path) && Distinct(path)
    ensures Distinct(r) && Members(r) == g[n]
    ensures forall i :: 0 <= i < |path| - 1 && path[i] == n ==> r != [] && r[0] == path[i + 1]
  {
    if exists i :: 0 <= i < |path| - 1 && path[i] == n then
      var i :| 0 <= i < |path| - 1 && path[i] == n;
      ListingFrom(g[n], path[i + 1])
    else Listing(g[n])
  }

  lemma OrderAlong(g: Adj, path: seq<Node>) returns (ord: Orders)
    requires Walk(g, path) && Distinct(path)
    ensures Lists(g, ord) && Follows(ord, path)
  {
    ord := map n | n in g :: Along(g, path, n);
    forall i | 0 <= i < |path| - 1
      ensures Listed(ord, path[i]) != [] && Listed(ord, path[i])[0] == path[i + 1]
    {
      assert path[i + 1] in Succ(g, path[i]);
    }
  }

  /** Nothing of the path has been finished before its last node. */
  ghost predicate LastFirst(m: Marks, path: seq<Node>, k: nat) {
    path != [] && k < |m.order| && m.order[k] == path[|path| - 1] && forall x :: x in path ==> x !in m.order[..k]
  }

  /** A run that follows the path comes to its end before it finishes anything on it. */
  lemma {:induction false} AlongPath(g: Adj, ord: Orders, to: Node, nodes: set<Node>, path: seq<Node>, i: nat, m: Marks)
      returns (k: nat)
    requires Lists(g, ord) && Inside(g, nodes) && Distinct(path) && Follows(ord, path) && i < |path|
    requires path[i] in nodes && m.seen.Keys <= nodes && m.order == [] && forall x :: x in m.seen <==> x in path[..i]
    ensures LastFirst(Visited(g, ord, to, nodes, path[i], m), path, k)
    decreases |path| - i
  {
    hide Lists, Inside, Members;
    var node := path[i];
    NotBefore(path, i);
    ListedSuccessors(g, ord, node);
    SonsInside(g, nodes, node);
    var begun := Marks(m.seen[node := node == to], []);
    var sons := Listed(ord, node);
    assert node in nodes - m.seen.Keys && node !in nodes - begun.seen.Keys;
    var (n, reachesTo) := VisitedSons(g, ord, to, nodes, sons, node == to, begun);
    var r := Visited(g, ord, to, nodes, node, m);
    assert r.order == n.order + [node] && path[..i + 1] == path[..i] + [node];
    if i == |path| - 1 {
      SonsKeep(g, ord, to, nodes, sons, node == to, begun);
      assert n.order[0..] == n.order && path[..i + 1] == path;
      k := |n.order|;
    } else {
      assert sons[0] == path[i + 1] && sons[0] in sons;
      k := AlongPath(g, ord, to, nodes, path, i + 1, begun);
      var a := Visited(g, ord, to, nodes, sons[0], begun);
      SonsKeep(g, ord, to, nodes, sons[1..], node == to || a.seen[sons[0]], a);
      assert n == VisitedSons(g, ord, to, nodes, sons[1..], node == to || a.seen[sons[0]], a).0;
      assert r.order[..k] == a.order[..k] && r.order[k] == a.order[k];
    }
  }

  lemma NotBefore(path: seq<Node>, i: nat)
    requires Distinct(path) && i < |path|
    ensures path[i] !in path[..i]
  {
  }

  /** At the end of a trap the node gets no mark, if nothing on the path was finished before. */
  lemma TrapUnmarked(g: Adj, from: Node, to: Node, m: Marks, path: seq<Node>, k: nat)
    requires Visiting(g, from, to, m, []) && Trap(g, from, to, path) && LastFirst(m, path, k)
    ensures m.order[k] in m.seen && !m.seen[m.order[k]]
  {
    hide Reaches, HasStack;
    if HasMarkedBefore(g, to, m, k) {
      var e :| e in Succ(g, m.order[k]) && (e == to || (e in m.order[..k] && e in m.seen && m.seen[e]));
      if e == to {
        ReachesSelf(g, to);
      } else {
        var j :| 0 <= j < k && m.order[..k][j] == e;
        MarkedReaches(g, from, to, m, j);
      }
    }
  }

  lemma TrapLoses(g: Adj, from: Node, to: Node, path: seq<Node>) returns (ord: Orders)
    requires Closed(g) && Trap(g, from, to, path)
    ensures Lists(g, ord) && !Complete(g, from, to, Printed(g, RunFrom(g, ord, from, to)))
  {
    hide Reaches, Visiting, MarksExact, Members;
    ord := OrderAlong(g, path);
    UniverseInside(g, from);
    RunExact(g, ord, from, to);
    var m := RunFrom(g, ord, from, to);
    var k := AlongPath(g, ord, to, Universe(g, from), path, 0, NO_MARKS);
    TrapUnmarked(g, from, to, m, path, k);
    var u := path[|path| - 1];
    var e := FirstAway(g, u, to);
    assert e in path;
    assert |path| > 1;
    var before := path[|path| - 2];
    assert u in Succ(g, before);
    WalkPart(g, path, 0, |path| - 2);
    assert OnWalk(g, from, to, before, u);
  }

  lemma FirstAway(g: Adj, node: Node, to: Node) returns (e: Node)
    requires Reaches(g, node, to) && node != to
    ensures e in Succ(g, node) && e != node && Reaches(g, e, to)
  {
    var p :| Between(g, p, node, to);
    var k := Leaves(g, p, {node});
    WalkPart(g, p, k + 1, |p| - 1);
    e := p[k + 1];
  }

  /** allpaths prints every edge on a walk to the target, in whatever order it comes across
      successors, exactly when the graph has no trap. */
  lemma CompleteExactly(g: Adj, from: Node, to: Node)
    requires Closed(g)
    ensures (forall ord :: Lists(g, ord) ==> Complete(g, from, to, Printed(g, RunFrom(g, ord, from, to))))
            <==> !Trapped(g, from, to)
  {
    hide Complete, Printed, RunFrom, Lists, Trap;
    if path :| Trap(g, from, to, path) {
      var ord := TrapLoses(g, from, to, path);
    }
    forall ord | Lists(g, ord) && !Trapped(g, from, to)
      ensures Complete(g, from, to, Printed(g, RunFrom(g, ord, from, to)))
    {
      PrintedEdges(g, ord, from, to);
    }
  }

  // ---------- traps ----------

  /** The same in terms of walks: every walk from the end of the path to the target comes back to
      the path. */
  ghost predicate Blocked(g: Adj, from: Node, to: Node, path: seq<Node>) {
    && Walk(g, path) && Distinct(path) && path[0] == from
    && var u := path[|path| - 1];
    && u != to && Reaches(g, u, to)
    && forall w :: Between(g, w, u, to) ==> Meets(w, path, u, to)
  }

  ghost predicate Meets(w: seq<Node>, path: seq<Node>, u: Node, to: Node) {
    exists x :: x in w && x in path && x != u && x != to
  }

  lemma {:induction false} BlockedTraps(g: Adj, from: Node, to: Node, path: seq<Node>)
    requires Closed(g) && Blocked(g, from, to, path)
    ensures Trapped(g, from, to)
    decreases Universe(g, from) - Members(path)
  {
    hide Reaches;
    var u := path[|path| - 1];
    assert !Meets([u, to], path, u, to);
    if !Trap(g, from, to, path) {
      var e :| e in Succ(g, u) && Reaches(g, e, to) && (e !in path || e == to);
      assert Between(g, [u, e], u, e);
      if e != to {
        var longer := path + [e];
        forall w | Between(g, w, e, to)
          ensures Meets(w, longer, e, to)
        {
          assert Between(g, [u] + w, u, to);
          var x :| x in [u] + w && x in path && x != u && x != to;
          assert x in longer;
        }
        assert e in Universe(g, from) - Members(path) && e in Members(longer) && Members(path) <= Members(longer);
        BlockedTraps(g, from, to, longer);
      }
    }
  }

  /** Both ways to say it come to the same. */
  lemma TrappedExactly(g: Adj, from: Node, to: Node)
    requires Closed(g)
    ensures Trapped(g, from, to) <==> exists path :: Blocked(g, from, to, path)
  {
    hide Reaches;
    if path :| Trap(g, from, to, path) {
      var u := path[|path| - 1];
      forall w | Between(g, w, u, to)
        ensures Meets(w, path, u, to)
      {
        var k := Leaves(g, w, {u});
        WalkPart(g, w, k + 1, |w| - 1);
        assert w[k + 1] in w && w[k + 1] in path;
      }
      assert Blocked(g, from, to, path);
    }
    if path :| Blocked(g, from, to, path) {
      BlockedTraps(g, from, to, path);
    }
  }

  /** No two different nodes reach each other. */
  ghost predicate Acyclic(g: Adj) {
    forall a, b :: Mutual(g, a, b) ==> a == b
  }

  lemma AcyclicNotTrapped(g: Adj, from: Node, to: Node)
    requires Acyclic(g)
    ensures !Trapped(g, from, to)
  {
    hide Reaches;
    if path :| Trap(g, from, to, path) {
      var u := path[|path| - 1];
      var e := FirstAway(g, u, to);
      var i :| 0 <= i < |path| && path[i] == e;
      WalkPart(g, path, i, |path| - 1);
      ReachesStep(g, u, e);
      assert Mutual(g, u, e);
    }
  }

  /** A graph with a trap: from b the target is reached through a only. */
  const TRAPPING: Adj := map["a" := {"b", "t"}, "b" := {"a"}, "t" := {}]

  /** A graph with the same cycle and without one: b has its own edge to the target. */
  const CYCLIC: Adj := map["a" := {"b"}, "b" := {"a", "t"}, "t" := {}]

  lemma CycleTraps() returns (ord: Orders)
    ensures Trapped(TRAPPING, "a", "t") && !Acyclic(TRAPPING)
    ensures Closed(TRAPPING) && Lists(TRAPPING, ord)
    ensures !Complete(TRAPPING, "a", "t", Printed(TRAPPING, RunFrom(TRAPPING, ord, "a", "t")))
  {
    hide Reaches, RunFrom, Printed, Complete, Lists;
    var path := ["a", "b"];
    ReachesThrough(TRAPPING, "b", "a", "t");
    assert Trap(TRAPPING, "a", "t", path);
    ord := TrapLoses(TRAPPING, "a", "t", path);
    if Acyclic(TRAPPING) {
      AcyclicNotTrapped(TRAPPING, "a", "t");
    }
  }

  lemma ReachesThrough(g: Adj, a: Node, b: Node, c: Node)
    requires b in Succ(g, a) && c in Succ(g, b)
    ensures Reaches(g, a, c)
  {
    ReachesStep(g, a, b);
    ReachesStep(g, b, c);
    ReachesTwice(g, a, b, c);
  }

  lemma CycleDoesNotTrap()
    ensures !Trapped(CYCLIC, "a", "t") && !Acyclic(CYCLIC)
    ensures Closed(CYCLIC) && forall ord ::
      Lists(CYCLIC, ord) ==> Complete(CYCLIC, "a", "t", Printed(CYCLIC, RunFrom(CYCLIC, ord, "a", "t")))
  {
    hide Reaches, RunFrom, Printed, Complete, Lists;
    ReachesThrough(CYCLIC, "a", "b", "t");
    ReachesStep(CYCLIC, "b", "t");
    ReachesStep(CYCLIC, "a", "b");
    ReachesStep(CYCLIC, "b", "a");
    assert Mutual(CYCLIC, "a", "b");
    if path :| Trap(CYCLIC, "a", "t", path) {
      var u := path[|path| - 1];
      ReachesSelf(CYCLIC, "t");
      InCyclic(path, |path| - 1);
    }
    CompleteExactly(CYCLIC, "a", "t");
  }

  lemma {:induction false} InCyclic(path: seq<Node>, i: nat)
    requires Walk(CYCLIC, path) && path[0] == "a" && i < |path|
    ensures path[i] in CYCLIC
  {
    if i > 0 {
      InCyclic(path, i - 1);
      assert path[i - 1 + 1] in Succ(CYCLIC, path[i - 1]);
    }
  }
}
