/** cmd/digraph/digraph.go: transposition, strongly connected components, paths. */
module Digraph {
  import opened Walks

  type Node = string

  type Adj = Edges<Node>

  // ------------------------------------------------------------------ finishing order

  ghost function Members(s: seq<Node>): set<Node> {
    set x | x in s
  }

  /** What has left a prefix of the order and can get out of it again, is in a component that
      the prefix does not hold completely. */
  ghost predicate Returns(g: Adj, done: set<Node>, out: set<Node>) {
    forall w, u :: w in done && u in g && u !in done && Reaches(g, w, u) ==> Caught(g, w, out)
  }

  ghost predicate Caught(g: Adj, w: Node, out: set<Node>) {
    exists x :: x in out && Mutual(g, w, x)
  }

  ghost predicate GoodOrder(g: Adj, order: seq<Node>) {
    forall i :: 0 <= i <= |order| ==> Returns(g, Members(order[..i]), g.Keys - Members(order[..i]))
  }

  /** The state of the forward pass: seen nodes that are not yet in the order are the ones
      being visited. */
  ghost predicate PassOk(g: Adj, seen: set<Node>, order: seq<Node>) {
    && Members(order) <= seen <= g.Keys
    && Distinct(order)
    && (forall x, y :: x in order && y in Succ(g, x) ==> y in seen)
    && Returns(g, Members(order), seen - Members(order))
    && GoodOrder(g, order)
  }

  /** All nodes being visited reach the node at hand. */
  ghost predicate Ancestors(g: Adj, visiting: set<Node>, node: Node) {
    forall x :: x in visiting ==> Reaches(g, x, node)
  }

  lemma CaughtWider(g: Adj, w: Node, out: set<Node>, out': set<Node>)
    requires Caught(g, w, out) && out <= out'
    ensures Caught(g, w, out')
  {
  }

  lemma SeeNode(g: Adj, seen: set<Node>, order: seq<Node>, node: Node)
    requires PassOk(g, seen, order) && node in g && node !in seen
    ensures PassOk(g, seen + {node}, order)
  {
    forall w, u | w in Members(order) && u in g && u !in Members(order) && Reaches(g, w, u)
      ensures Caught(g, w, seen + {node} - Members(order))
    {
      CaughtWider(g, w, seen - Members(order), seen + {node} - Members(order));
    }
  }

  /** The node at hand is finished: its successors are all seen. */
  lemma FinishNode(g: Adj, seen: set<Node>, order: seq<Node>, node: Node)
    requires PassOk(g, seen, order) && node in seen && node !in order && Ancestors(g, seen - Members(order), node)
    requires forall e :: e in Succ(g, node) ==> e in seen
    ensures PassOk(g, seen, order + [node])
  {
    var order' := order + [node];
    var done, done' := Members(order), Members(order');
    assert done' == done + {node};
    forall w, u | w in done' && u in g && u !in done' && Reaches(g, w, u)
      ensures Caught(g, w, seen - done')
    {
      if w == node {
        OutOfNode(g, seen, order, node, u);
      } else {
        assert Caught(g, w, seen - done);
        var x :| x in seen - done && Mutual(g, w, x);
        if x == node {
          ReachesTwice(g, node, w, u);
          OutOfNode(g, seen, order, node, u);
          var y :| y in seen - done' && Mutual(g, node, y);
          ReachesTwice(g, w, node, y);
          ReachesTwice(g, y, node, w);
        }
      }
    }
    forall i | 0 <= i <= |order'|
      ensures Returns(g, Members(order'[..i]), g.Keys - Members(order'[..i]))
    {
      if i <= |order| {
        assert order'[..i] == order[..i];
      } else {
        assert order'[..i] == order';
        forall w, u | w in done' && u in g && u !in done' && Reaches(g, w, u)
          ensures Caught(g, w, g.Keys - done')
        {
          CaughtWider(g, w, seen - done', g.Keys - done');
        }
      }
    }
  }

  /** A walk from the node at hand out of the finished nodes comes to a node being visited,
      which leads back. */
  lemma OutOfNode(g: Adj, seen: set<Node>, order: seq<Node>, node: Node, u: Node)
    requires PassOk(g, seen, order) && node in seen && node !in order && Ancestors(g, seen - Members(order), node)
    requires forall e :: e in Succ(g, node) ==> e in seen
    requires Reaches(g, node, u) && u !in Members(order + [node])
    ensures Caught(g, node, seen - Members(order + [node]))
  {
    var done' := Members(order + [node]);
    var p :| Between(g, p, node, u);
    var k := Leaves(g, p, done');
    WalkPart(g, p, 0, k + 1);
    var y := p[k + 1];
    assert p[k] in done' ==> p[k] == node || p[k] in order;
    assert y in seen && y !in Members(order);
    assert y in seen - done' && Mutual(g, node, y);
  }

  class ForwardPass {
    const g: Adj
    var seen: set<Node>
    var order: seq<Node>

    constructor (g: Adj)
      ensures this.g == g && seen == {} && order == []
    {
      this.g := g;
      seen, order := {}, [];
    }

    /** visit */
    method Visit(node: Node)
      requires Closed(g) && PassOk(g, seen, order) && node in g && Ancestors(g, seen - Members(order), node)
      modifies this
      ensures PassOk(g, seen, order) && node in seen && old(seen) <= seen && old(order) <= order
      ensures seen - Members(order) == old(seen - Members(order))
      decreases g.Keys - seen
    {
      hide PassOk, Reaches, GoodOrder;
      if node !in seen {
        PassFacts(g, seen, order);
        SeeNode(g, seen, order, node);
        ghost var was := seen - Members(order);
        seen := seen + {node};
        ghost var grey := seen - Members(order);
        assert grey == was + {node};
        ReachesSelf(g, node);
        var todo := g[node];
        while todo != {}
          invariant todo <= g[node] && PassOk(g, seen, order) && old(seen) + {node} <= seen && old(order) <= order
          invariant seen - Members(order) == grey && forall e :: e in g[node] && e !in todo ==> e in seen
          decreases |todo|
        {
          var e :| e in todo;
          todo := todo - {e};
          SonOfAncestors(g, grey, node, e);
          Visit(e);
        }
        FinishNode(g, seen, order, node);
        MembersPush(order, node);
        order := order + [node];
      }
    }

    /** The loop over all nodes. */
    method VisitAll()
      requires Closed(g) && seen == {} && order == []
      modifies this
      ensures GoodOrder(g, order) && Distinct(order) && Members(order) == g.Keys
    {
      var todo := g.Keys;
      assert PassOk(g, seen, order);
      while todo != {}
        invariant todo <= g.Keys && PassOk(g, seen, order) && seen - Members(order) == {} && g.Keys - todo <= seen
        decreases |todo|
      {
        var node :| node in todo;
        todo := todo - {node};
        Visit(node);
      }
      forall x | x in g.Keys
        ensures x in Members(order)
      {
        assert x !in seen - Members(order);
      }
    }
  }

  lemma PassFacts(g: Adj, seen: set<Node>, order: seq<Node>)
    requires PassOk(g, seen, order)
    ensures seen <= g.Keys && Members(order) <= seen
  {
  }

  lemma SonOfAncestors(g: Adj, visiting: set<Node>, node: Node, e: Node)
    requires Ancestors(g, visiting, node) && e in Succ(g, node)
    ensures Ancestors(g, visiting, e)
  {
    forall x | x in visiting
      ensures Reaches(g, x, e)
    {
      ReachesStep(g, node, e);
      ReachesTwice(g, x, node, e);
    }
  }

  lemma MembersPush(order: seq<Node>, node: Node)
    ensures Members(order + [node]) == Members(order) + {node}
  {
  }

  // ------------------------------------------------------------------ graphs

  /** g' is g with edges from one node to others, and with those nodes. */
  ghost predicate EdgesAdded(g: Adj, from: Node, to: set<Node>, g': Adj) {
    g'.Keys == g.Keys + {from} + to && forall n :: Succ(g', n) == Succ(g, n) + if n == from then to else {}
  }

  /** The edges out of the nodes in done, and out of node to the nodes in part, turned round. */
  ghost predicate TurnedRound(g: Adj, r: Adj, done: set<Node>, node: Node, part: set<Node>) {
    && done <= r.Keys <= g.Keys
    && forall a, b :: b in Succ(r, a) <==> (b in done && a in Succ(g, b)) || (b == node && a in part)
  }

  class Graph {
    var adj: Adj

    constructor ()
      ensures adj == map[]
    {
      adj := map[];
    }

    method AddNode(node: Node)
      modifies this
      ensures EdgesAdded(old(adj), node, {}, adj)
    {
      if node !in adj {
        adj := adj[node := {}];
      }
    }

    method AddEdges(from: Node, to: seq<Node>)
      modifies this
      ensures EdgesAdded(old(adj), from, Members(to), adj)
    {
      hide Members, EdgesAdded;
      AddNode(from);
      AddedKeys(old(adj), from, {}, adj);
      ghost var g := old(adj);
      NoMembers();
      for k := 0 to |to|
        invariant EdgesAdded(g, from, Members(to[..k]), adj) && from in adj
      {
        ghost var was := adj;
        AddNode(to[k]);
        AddedKeys(was, to[k], {}, adj);
        ghost var mid := adj;
        adj := adj[from := adj[from] + {to[k]}];
        assert to[..k + 1] == to[..k] + [to[k]];
        MembersPush(to[..k], to[k]);
        EdgeAdded(was, from, to[k], mid, adj);
        AddedTwice(g, from, Members(to[..k]), was, {to[k]}, adj);
      }
      assert to[..|to|] == to;
    }

    /** The inner loop of transpose, for the graph under construction. */
    method TurnRound(g: Adj, node: Node, ghost done: set<Node>)
      requires Closed(g) && node in g && node !in done && TurnedRound(g, adj, done, node, {})
      modifies this
      ensures TurnedRound(g, adj, done + {node}, node, {})
    {
      hide EdgesAdded, TurnedRound;
      ghost var r0 := adj;
      AddNode(node);
      NodeTurned(g, r0, adj, done, node);
      var edges := g[node];
      ghost var part := {};
      while edges != {}
        invariant edges <= g[node] && part == g[node] - edges && TurnedRound(g, adj, done, node, part) && node in adj
        decreases |edges|
      {
        var succ :| succ in edges;
        edges := edges - {succ};
        ghost var r := adj;
        AddEdges(succ, [node]);
        EdgeTurned(g, r, adj, done, node, part, succ);
        part := part + {succ};
      }
      assert part == g[node];
      NodeDone(g, adj, done, node);
    }

    /** transpose */
    method Transpose() returns (rev: Graph)
      requires Closed(adj)
      ensures fresh(rev) && Closed(rev.adj) && Reversed(adj, rev.adj)
    {
      hide TurnedRound;
      rev := new Graph();
      var todo := adj.Keys;
      ghost var last := "";
      NothingTurned(adj, last);
      while todo != {}
        invariant todo <= adj.Keys && fresh(rev) && TurnedRound(adj, rev.adj, adj.Keys - todo, last, {})
        decreases |todo|
      {
        var node :| node in todo;
        ghost var done := adj.Keys - todo;
        NodeForgotten(adj, rev.adj, done, last, node);
        rev.TurnRound(adj, node, done);
        todo := todo - {node};
        last := node;
        assert adj.Keys - todo == done + {node};
      }
      assert adj.Keys - todo == adj.Keys;
      AllTurned(adj, rev.adj, last);
    }
  }

  lemma AddedKeys(g: Adj, from: Node, to: set<Node>, g': Adj)
    requires EdgesAdded(g, from, to, g')
    ensures g'.Keys == g.Keys + {from} + to
  {
  }

  lemma EdgeAdded(g: Adj, from: Node, x: Node, mid: Adj, g': Adj)
    requires EdgesAdded(g, x, {}, mid) && from in g && from in mid && g' == mid[from := mid[from] + {x}]
    ensures EdgesAdded(g, from, {x}, g')
  {
    forall n
      ensures Succ(g', n) == Succ(g, n) + if n == from then {x} else {}
    {
      assert Succ(mid, n) == Succ(g, n) + if n == x then {} else {};
    }
  }

  lemma AddedTwice(g: Adj, from: Node, a: set<Node>, mid: Adj, b: set<Node>, g': Adj)
    requires EdgesAdded(g, from, a, mid) && EdgesAdded(mid, from, b, g')
    ensures EdgesAdded(g, from, a + b, g') && from in g'
  {
    forall n
      ensures Succ(g', n) == Succ(g, n) + if n == from then a + b else {}
    {
      assert Succ(g', n) == Succ(mid, n) + if n == from then b else {};
      assert Succ(mid, n) == Succ(g, n) + if n == from then a else {};
    }
  }

  lemma NoMembers()
    ensures Members([]) == {}
  {
  }

  lemma NothingTurned(g: Adj, node: Node)
    ensures TurnedRound(g, map[], g.Keys - g.Keys, node, {})
  {
  }

  lemma NodeForgotten(g: Adj, r: Adj, done: set<Node>, last: Node, node: Node)
    requires TurnedRound(g, r, done, last, {})
    ensures TurnedRound(g, r, done, node, {})
  {
  }

  lemma NodeTurned(g: Adj, r: Adj, r': Adj, done: set<Node>, node: Node)
    requires TurnedRound(g, r, done, node, {}) && EdgesAdded(r, node, {}, r') && node in g
    ensures TurnedRound(g, r', done, node, {}) && node in r'
  {
    forall a
      ensures Succ(r', a) == Succ(r, a)
    {
    }
  }

  lemma EdgeTurned(g: Adj, r: Adj, r': Adj, done: set<Node>, node: Node, part: set<Node>, succ: Node)
    requires TurnedRound(g, r, done, node, part) && EdgesAdded(r, succ, Members([node]), r') && node in r && succ in g
    ensures TurnedRound(g, r', done, node, part + {succ}) && node in r'
  {
    assert Members([node]) == {node};
    forall a
      ensures Succ(r', a) == Succ(r, a) + if a == succ then {node} else {}
    {
    }
  }

  lemma NodeDone(g: Adj, r: Adj, done: set<Node>, node: Node)
    requires node in g && TurnedRound(g, r, done, node, g[node]) && node in r
    ensures TurnedRound(g, r, done + {node}, node, {})
  {
  }

  lemma AllTurned(g: Adj, r: Adj, last: Node)
    requires Closed(g) && TurnedRound(g, r, g.Keys, last, {})
    ensures Closed(r) && Reversed(g, r)
  {
    forall n, e | n in r && e in r[n]
      ensures e in r
    {
      assert e in Succ(r, n);
    }
    forall a, b | a in g && b in g
      ensures a in r[b] <==> b in g[a]
    {
      assert a in Succ(r, b) <==> b in Succ(g, a);
    }
  }

  // ------------------------------------------------------------------ searches

  class Search {
    const g: Adj
    var seen: set<Node>
    /** The component being collected. */
    var scc: set<Node>

    constructor (g: Adj)
      ensures this.g == g && seen == {} && scc == {}
    {
      this.g := g;
      seen, scc := {}, {};
    }

    /** visit of reachableFrom, rvisit of sccs. */
    method Visit(node: Node)
      requires Closed(g) && node in g && seen <= g.Keys
      modifies this
      ensures seen <= g.Keys && Searched(g, old(seen), node, seen) && scc == old(scc) + (seen - old(seen))
      decreases g.Keys - seen
    {
      hide Searched, Searching;
      if node !in seen {
        SearchStart(g, seen, node);
        ghost var was := seen;
        seen := seen + {node};
        scc := scc + {node};
        var todo := g[node];
        while todo != {}
          invariant todo <= g[node] && seen <= g.Keys && was + {node} <= seen && Searching(g, was, node, todo, seen)
          invariant scc == old(scc) + (seen - was)
          decreases |todo|
        {
          var e :| e in todo;
          ghost var mid := seen;
          Visit(e);
          SearchOne(g, was, node, todo, e, mid, seen);
          SearchGrows(g, mid, e, seen);
          todo := todo - {e};
        }
        SearchDone(g, was, node, seen);
      } else {
        SearchNothing(g, seen, node);
        assert seen - old(seen) == {};
      }
    }

    /** reachableFrom */
    method ReachableFrom(roots: set<Node>)
      requires Closed(g) && roots <= g.Keys && seen == {} && scc == {}
      modifies this
      ensures forall x :: x in seen <==> exists r :: r in roots && Reaches(g, r, x)
    {
      var todo := roots;
      while todo != {}
        invariant todo <= roots && seen <= g.Keys && roots - todo <= seen
        invariant forall x :: x in seen ==> exists r :: r in roots && Reaches(g, r, x)
        invariant forall x, y :: x in seen && y in Succ(g, x) ==> y in seen
        decreases |todo|
      {
        var root :| root in todo;
        todo := todo - {root};
        Visit(root);
      }
      forall r, x | r in roots && Reaches(g, r, x)
        ensures x in seen
      {
        ClosedHolds(g, seen, r, x);
      }
    }
  }

  // ------------------------------------------------------------------ strongly connected components

  /** A maximal strongly connected set. */
  ghost predicate IsScc(g: Adj, c: set<Node>) {
    c != {} && c <= g.Keys && forall x, y :: x in c && y in g ==> (y in c <==> Mutual(g, x, y))
  }

  ghost function Union(sets: seq<set<Node>>): set<Node> {
    if sets == [] then {} else Union(sets[..|sets| - 1]) + sets[|sets| - 1]
  }

  /** No edge leads from a set to an earlier one. */
  ghost predicate EdgesForward(g: Adj, sets: seq<set<Node>>) {
    forall i, j, x, y :: 0 <= i < j < |sets| && x in sets[j] && y in sets[i] ==> y !in Succ(g, x)
  }

  ghost predicate Apart(sets: seq<set<Node>>) {
    forall i, j :: 0 <= i < j < |sets| ==> sets[i] !! sets[j]
  }

  /** The components found so far, and all that lead to them. */
  ghost predicate SccsOk(g: Adj, sets: seq<set<Node>>) {
    && (forall i :: 0 <= i < |sets| ==> IsScc(g, sets[i])) && Apart(sets) && EdgesForward(g, sets)
    && forall x, y :: x in g && y in Union(sets) && Reaches(g, x, y) ==> x in Union(sets)
  }

  /** A search through the turned graph from the node that finished last finds its component. */
  lemma ComponentFound(g: Adj, r: Adj, order: seq<Node>, n: nat, seen: set<Node>, seen': set<Node>)
    requires Closed(g) && Closed(r) && Reversed(g, r) && GoodOrder(g, order) && Distinct(order)
    requires Members(order) == g.Keys && n < |order|
    requires Members(order[n + 1..]) <= seen <= g.Keys && order[n] !in seen && seen' <= g.Keys
    requires forall x, y :: x in g && y in seen && Reaches(g, x, y) ==> x in seen
    requires Searched(r, seen, order[n], seen')
    ensures IsScc(g, seen' - seen)
    ensures forall x, y :: x in g && y in seen' && Reaches(g, x, y) ==> x in seen'
  {
    hide Reaches, GoodOrder;
    var top := order[n];
    assert top in Members(order);
    ReversedBack(g, r);
    forall y | y in g
      ensures y in seen' - seen <==> Mutual(g, top, y)
    {
      if y in seen' - seen {
        ReverseReaches(r, g, top, y);
        BackToTop(g, order, n, seen, y);
      }
      if Mutual(g, top, y) {
        ReverseReaches(g, r, y, top);
        FoundOrSeen(g, r, seen, top, seen', y);
      }
    }
    forall x, y | x in seen' - seen && y in g
      ensures y in seen' - seen <==> Mutual(g, x, y)
    {
      MutualTwice(g, top, x, y);
    }
    forall x, y | x in g && y in seen' && Reaches(g, x, y)
      ensures x in seen'
    {
      if y !in seen {
        ReachesTwice(g, x, y, top);
        ReverseReaches(g, r, x, top);
        FoundOrSeen(g, r, seen, top, seen', x);
      }
    }
  }

  lemma MutualTwice(g: Adj, a: Node, b: Node, c: Node)
    requires Mutual(g, a, b)
    ensures Mutual(g, a, c) <==> Mutual(g, b, c)
  {
    if Mutual(g, a, c) {
      ReachesTwice(g, b, a, c);
      ReachesTwice(g, c, a, b);
    }
    if Mutual(g, b, c) {
      ReachesTwice(g, a, b, c);
      ReachesTwice(g, c, b, a);
    }
  }

  lemma ReversedBack(g: Adj, r: Adj)
    requires Reversed(g, r)
    ensures Reversed(r, g)
  {
  }

  /** An unseen node that leads to the top is in the top's component: it finished earlier, and
      what it gets caught by can only be the top. */
  lemma BackToTop(g: Adj, order: seq<Node>, n: nat, seen: set<Node>, y: Node)
    requires GoodOrder(g, order) && Distinct(order) && Members(order) == g.Keys && n < |order|
    requires Members(order[n + 1..]) <= seen
    requires forall x, z :: x in g && z in seen && Reaches(g, x, z) ==> x in seen
    requires order[n] !in seen && y in g && y !in seen && Reaches(g, y, order[n])
    ensures Mutual(g, order[n], y)
  {
    hide Reaches;
    var top, before := order[n], Members(order[..n]);
    assert top in Members(order) && top !in before;
    LastOrBefore(order, n, y);
    if y == top {
      ReachesSelf(g, y);
    } else {
      assert Returns(g, before, g.Keys - before);
      var x :| x in g.Keys - before && Mutual(g, y, x);
      LastOrBefore(order, n, x);
    }
  }

  lemma LastOrBefore(order: seq<Node>, n: nat, y: Node)
    requires n < |order| && y in Members(order)
    ensures y == order[n] || y in Members(order[..n]) || y in Members(order[n + 1..])
  {
    var k :| 0 <= k < |order| && order[k] == y;
    assert k < n ==> order[..n][k] == y;
    assert k > n ==> order[n + 1..][k - n - 1] == y;
  }

  /** Whatever leads to the top is found by the search, or was seen before. */
  lemma FoundOrSeen(g: Adj, r: Adj, seen: set<Node>, top: Node, seen': set<Node>, y: Node)
    requires Closed(g) && Closed(r) && Reversed(g, r) && seen <= g.Keys && top in g
    requires forall x, z :: x in g && z in seen && Reaches(g, x, z) ==> x in seen
    requires Searched(r, seen, top, seen') && Reaches(r, top, y)
    ensures y in seen'
  {
    hide Reaches;
    forall x, z | x in seen' && z in Succ(r, x)
      ensures z in seen'
    {
      if x in seen {
        ReachesStep(g, z, x);
      }
    }
    ClosedHolds(r, seen', top, y);
  }

  ghost predicate Distinct(order: seq<Node>) {
    forall i, j :: 0 <= i < j < |order| ==> order[i] != order[j]
  }

  lemma UnionPush(sets: seq<set<Node>>, c: set<Node>)
    ensures Union(sets + [c]) == Union(sets) + c
  {
    assert (sets + [c])[..|sets|] == sets;
  }

  lemma {:induction false} UnionHas(sets: seq<set<Node>>, i: nat)
    requires i < |sets|
    ensures sets[i] <= Union(sets)
  {
    if i < |sets| - 1 {
      UnionHas(sets[..|sets| - 1], i);
    }
  }

  /** A component of unseen nodes joins the list. */
  lemma SccsPush(g: Adj, sets: seq<set<Node>>, c: set<Node>)
    requires SccsOk(g, sets) && IsScc(g, c) && c !! Union(sets)
    requires forall x, y :: x in g && y in Union(sets) + c && Reaches(g, x, y) ==> x in Union(sets) + c
    ensures SccsOk(g, sets + [c])
  {
    hide Reaches;
    UnionPush(sets, c);
    forall i | 0 <= i < |sets|
      ensures sets[i] <= Union(sets)
    {
      UnionHas(sets, i);
    }
    forall i, x, y | 0 <= i < |sets| && x in c && y in sets[i]
      ensures y !in Succ(g, x)
    {
      if y in Succ(g, x) {
        ReachesStep(g, x, y);
      }
    }
  }

  /** sccs (Kosaraju's algorithm): the sets are exactly the strongly connected components, each
      once, and an edge between two of them leads from an earlier to a later one. */
  method Sccs(graph: Graph) returns (sccs: seq<set<Node>>)
    requires Closed(graph.adj)
    ensures forall i :: 0 <= i < |sccs| ==> IsScc(graph.adj, sccs[i])
    ensures Apart(sccs) && Union(sccs) == graph.adj.Keys
    ensures EdgesForward(graph.adj, sccs)
  {
    hide Searched, GoodOrder, Members, Distinct, IsScc, Reaches, Apart, EdgesForward;
    var g := graph.adj;
    var forward := new ForwardPass(g);
    forward.VisitAll();
    var order := forward.order;
    var rev := graph.Transpose();
    var back := new Search(rev.adj);
    sccs := [];
    var n := |order|;
    NoSccs(g, order);
    while n > 0
      invariant 0 <= n <= |order| && SccsOk(g, sccs) && back.g == rev.adj
      invariant back.seen == Union(sccs) <= g.Keys && Members(order[n..]) <= back.seen
    {
      n := n - 1;
      var top := order[n];
      ghost var seen := back.seen;
      TopMember(g, order, n, seen);
      if top !in back.seen {
        back.scc := {};
        back.Visit(top);
        SearchGrows(rev.adj, seen, top, back.seen);
        ComponentFound(g, rev.adj, order, n, seen, back.seen);
        assert back.scc == back.seen - seen;
        assert Union(sccs) + back.scc == back.seen;
        UnionPush(sccs, back.scc);
        SccsPush(g, sccs, back.scc);
        sccs := sccs + [back.scc];
      }
    }
    assert order[0..] == order;
  }

  lemma NoSccs(g: Adj, order: seq<Node>)
    ensures SccsOk(g, []) && Members(order[|order|..]) == {}
  {
  }

  lemma TopMember(g: Adj, order: seq<Node>, n: nat, seen: set<Node>)
    requires n < |order| && Members(order[n + 1..]) <= seen && Members(order) == g.Keys
    ensures order[n] in g && forall s :: seen <= s && order[n] in s ==> Members(order[n..]) <= s
  {
    assert order[n] in Members(order);
    assert order[n..] == [order[n]] + order[n + 1..];
  }

  // ------------------------------------------------------------------ paths

  /** The edges of a walk from a to b. */
  ghost predicate Chain(g: Adj, path: seq<(Node, Node)>, a: Node, b: Node) {
    && (path == [] ==> a == b) && (path != [] ==> path[0].0 == a && path[|path| - 1].1 == b)
    && (forall k :: 0 <= k < |path| ==> path[k].1 in Succ(g, path[k].0))
    && forall k :: 0 <= k < |path| - 1 ==> path[k].1 == path[k + 1].0
  }

  lemma ChainReaches(g: Adj, path: seq<(Node, Node)>, a: Node, b: Node)
    requires Chain(g, path, a, b)
    ensures Reaches(g, a, b)
  {
    var p := [a] + seq(|path|, k requires 0 <= k < |path| => path[k].1);
    assert Between(g, p, a, b);
  }

  class PathSearch {
    const g: Adj
    const to: Node
    var seen: set<Node>
    var printed: seq<(Node, Node)>

    constructor (g: Adj, to: Node)
      ensures this.g == g && this.to == to && seen == {} && printed == []
    {
      this.g, this.to := g, to;
      seen, printed := {}, [];
    }

    /** dfs */
    method Dfs(path: seq<(Node, Node)>, from: Node, ghost start: Node, ghost nodes: set<Node>) returns (found: bool)
      requires Chain(g, path, start, from) && printed == []
      requires from in nodes && seen <= nodes && forall n, e :: n in nodes && e in Succ(g, n) ==> e in nodes
      modifies this
      ensures old(seen) <= seen <= nodes
      ensures found ==> Chain(g, printed, start, to)
      ensures !found ==> printed == [] && Searched(g, old(seen), from, seen) && (to in seen ==> to in old(seen))
      decreases nodes - seen
    {
      hide Searched, Searching, Chain;
      if from !in seen {
        SearchStart(g, seen, from);
        ghost var was := seen;
        seen := seen + {from};
        if from == to {
          printed := path;
          return true;
        }
        var todo := Succ(g, from);
        while todo != {}
          invariant todo <= Succ(g, from) && was + {from} <= seen <= nodes && printed == []
          invariant Searching(g, was, from, todo, seen) && (to in seen ==> to in was)
          decreases |todo|
        {
          var e :| e in todo;
          ChainPush(g, path, start, from, e);
          ghost var mid := seen;
          found := Dfs(path + [(from, e)], e, start, nodes);
          if found {
            return;
          }
          SearchOne(g, was, from, todo, e, mid, seen);
          todo := todo - {e};
        }
        SearchDone(g, was, from, seen);
      } else {
        SearchNothing(g, seen, from);
      }
      found := false;
    }

    /** somepath: finds a path exactly when there is one, and prints a chain of edges from the
        one node to the other. */
    method SomePath(from: Node, ghost nodes: set<Node>) returns (ok: bool)
      requires seen == {} && printed == []
      requires from in nodes && forall n, e :: n in nodes && e in Succ(g, n) ==> e in nodes
      modifies this
      ensures ok <==> Reaches(g, from, to)
      ensures ok ==> Chain(g, printed, from, to)
      ensures !ok ==> printed == []
    {
      hide Reaches;
      ok := Dfs([], from, from, nodes);
      if ok {
        ChainReaches(g, printed, from, to);
      } else if Reaches(g, from, to) {
        ClosedHolds(g, seen, from, to);
      }
    }
  }

  lemma ChainPush(g: Adj, path: seq<(Node, Node)>, a: Node, b: Node, e: Node)
    requires Chain(g, path, a, b) && e in Succ(g, b)
    ensures Chain(g, path + [(b, e)], a, e)
  {
  }
}
