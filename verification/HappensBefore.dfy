/** The happens-before graph (AddHappenBeforeEdges, DFSVisit, DFSCanReach, CheckGoInLoops in
    concurrency/rfg.go). */
module HappensBefore {
  import opened Walks

  datatype Kind = Channel | Close | Cancel | WGDone | Exit | Signal | Broadcast | Select | Other

  datatype Option<T> = None | Some(value: T)

  /** A node, as far as this part of the program looks at it. Points-to sets are given. */
  datatype Info = Info(kind: Kind, isSender: bool, isWGDone: bool, pts: seq<nat>, baseObj: nat,
                       cases: seq<Option<nat>>, gid: int)

  /** Everything that stays fixed while edges are added and queries asked. */
  datatype Flow = Flow(infos: map<nat, Info>, adj: map<nat, seq<nat>>, consumers: map<nat, seq<nat>>,
                       loops: map<int, map<nat, nat>>, plus: bool)

  function At<K(==), V>(m: map<K, seq<V>>, k: K): seq<V> {
    if k in m then m[k] else []
  }

  function Elems<T(==, !new)>(s: seq<T>): (e: set<T>)
    ensures forall x :: x in e <==> x in s
  {
    set x | x in s
  }

  ghost predicate FlowOk(f: Flow, sync: map<nat, seq<nat>>) {
    && (forall n, k :: n in f.infos && k in At(f.adj, n) ==> k in f.infos)
    && (forall o, k :: o in f.consumers && k in f.consumers[o] ==> k in f.infos)
    && (forall n, k :: n in f.infos && k in Cases(f, n) ==> k in f.infos)
    && forall n, k :: n in f.infos && k in At(sync, n) ==> k in f.infos
  }

  // ------------------------------------------------------------------ the edges

  function Present(cases: seq<Option<nat>>): seq<nat> {
    if cases == [] then [] else (if cases[0].Some? then [cases[0].value] else []) + Present(cases[1..])
  }

  function Cases(f: Flow, n: nat): seq<nat> {
    if n in f.infos && f.infos[n].kind == Select then Present(f.infos[n].cases) else []
  }

  function SyncKids(f: Flow, sync: map<nat, seq<nat>>, n: nat): seq<nat> {
    if f.plus then At(sync, n) else []
  }

  /** The relation that DFSVisit follows: synchronisation edges, select cases, program order. */
  ghost function HbEdges(f: Flow, sync: map<nat, seq<nat>>): Edges<nat> {
    map n | n in f.infos :: Elems(SyncKids(f, sync, n)) + Elems(Cases(f, n)) + Elems(At(f.adj, n))
  }

  lemma {:induction false} PresentAre(cases: seq<Option<nat>>, k: nat)
    ensures k in Present(cases) <==> Some(k) in cases
  {
    if cases != [] {
      assert cases == [cases[0]] + cases[1..];
      PresentAre(cases[1..], k);
    }
  }

  /** An edge is one of program order, a select with its case, or, when asked for, a synchronisation. */
  lemma EdgesExactly(f: Flow, sync: map<nat, seq<nat>>, n: nat, k: nat)
    requires n in f.infos
    ensures k in HbEdges(f, sync)[n] <==>
      (k in At(f.adj, n) || (f.infos[n].kind == Select && Some(k) in f.infos[n].cases) || (f.plus && k in At(sync, n)))
  {
    hide At, Present;
    PresentAre(f.infos[n].cases, k);
  }

  lemma EdgesClosed(f: Flow, sync: map<nat, seq<nat>>)
    requires FlowOk(f, sync)
    ensures Closed(HbEdges(f, sync))
  {
    forall n, e | n in HbEdges(f, sync) && e in HbEdges(f, sync)[n]
      ensures e in HbEdges(f, sync)
    {
    }
  }

  // ------------------------------------------------------------------ producers

  /** The objects for which a node is a producer. */
  function Produces(i: Info): seq<nat> {
    match i.kind
    case Channel => if i.isSender then i.pts else []
    case Close => i.pts
    case Cancel => [i.baseObj]
    case WGDone => i.pts
    case Exit => if i.isWGDone then i.pts else []
    case Signal => i.pts
    case Broadcast => i.pts
    case Select => []
    case Other => []
  }

  /** The node produces for object o: a sent value, a closing, a signal, a broadcast or a finished
      task on an object that it may point to, or the cancelling of its own. */
  ghost predicate Producer(i: Info, o: nat) {
    || (o in i.pts && (i.kind == Close || i.kind == WGDone || i.kind == Signal || i.kind == Broadcast))
    || (o in i.pts && ((i.kind == Channel && i.isSender) || (i.kind == Exit && i.isWGDone)))
    || (i.kind == Cancel && o == i.baseObj)
  }

  lemma ProducesExactly(i: Info, o: nat)
    ensures o in Produces(i) <==> Producer(i, o)
    ensures Produces(i) == [] || Produces(i) == i.pts || Produces(i) == [i.baseObj]
  {
  }

  /** The consumers of those objects, in order. */
  function Targets(f: Flow, objs: seq<nat>): seq<nat> {
    if objs == [] then [] else Targets(f, objs[..|objs| - 1]) + At(f.consumers, objs[|objs| - 1])
  }

  lemma TargetsNext(f: Flow, objs: seq<nat>, i: nat)
    requires i < |objs|
    ensures Targets(f, objs[..i + 1]) ==
      Targets(f, objs[..i]) + if objs[i] in f.consumers then f.consumers[objs[i]] else []
  {
    assert objs[..i + 1][..i] == objs[..i];
  }

  /** The graph of program order alone, which the breadth-first search walks. */
  ghost function OrderEdges(f: Flow): Edges<nat> {
    map n | n in f.infos :: Elems(At(f.adj, n))
  }

  /** Exactly the producers that are reachable in program order got their edges. */
  ghost predicate EdgesFrom(f: Flow, sync: map<nat, seq<nat>>, done: set<nat>, sync': map<nat, seq<nat>>) {
    forall n :: n in f.infos ==>
      At(sync', n) == At(sync, n) + if n in done then Targets(f, Produces(f.infos[n])) else []
  }

  lemma {:induction false} TargetsAre(f: Flow, objs: seq<nat>, k: nat)
    ensures k in Targets(f, objs) <==> exists o :: o in objs && k in At(f.consumers, o)
  {
    if objs != [] {
      var front, last := objs[..|objs| - 1], objs[|objs| - 1];
      assert objs == front + [last];
      TargetsAre(f, front, k);
    }
  }

  /** An edge from n to k is new exactly when n has been reached, produces for some object, and k
      consumes that object. */
  lemma EdgesMean(f: Flow, sync: map<nat, seq<nat>>, done: set<nat>, sync': map<nat, seq<nat>>, n: nat, k: nat)
    requires EdgesFrom(f, sync, done, sync') && n in f.infos
    ensures k in At(sync', n) <==>
      k in At(sync, n) || (n in done && exists o :: Producer(f.infos[n], o) && k in At(f.consumers, o))
  {
    hide At, Targets, Produces, Producer;
    var objs := Produces(f.infos[n]);
    forall o
      ensures o in objs <==> Producer(f.infos[n], o)
    {
      ProducesExactly(f.infos[n], o);
    }
    TargetsAre(f, objs, k);
  }

  class RFGraph {
    const f: Flow
    var sync: map<nat, seq<nat>>

    constructor (f: Flow)
      ensures this.f == f && sync == map[]
    {
      this.f := f;
      sync := map[];
    }

    /** The inner loop of addEdge. */
    method Append(dsts: seq<nat>, src: nat)
      modifies `sync
      ensures At(sync, src) == At(old(sync), src) + dsts && forall n :: n != src ==> At(sync, n) == At(old(sync), n)
    {
      ghost var was := At(sync, src);
      for k := 0 to |dsts|
        invariant At(sync, src) == was + dsts[..k]
        invariant forall n :: n != src ==> At(sync, n) == At(old(sync), n)
      {
        assert dsts[..k + 1] == dsts[..k] + [dsts[k]];
        sync := sync[src := At(sync, src) + [dsts[k]]];
      }
      assert dsts[..|dsts|] == dsts;
    }

    /** addEdge */
    method AddEdge(objs: seq<nat>, src: nat)
      modifies `sync
      ensures At(sync, src) == At(old(sync), src) + Targets(f, objs)
      ensures forall n :: n != src ==> At(sync, n) == At(old(sync), n)
    {
      hide At;
      ghost var was := At(sync, src);
      for i := 0 to |objs|
        invariant At(sync, src) == was + Targets(f, objs[..i])
        invariant forall n :: n != src ==> At(sync, n) == At(old(sync), n)
      {
        TargetsNext(f, objs, i);
        if objs[i] in f.consumers {
          Append(f.consumers[objs[i]], src);
        }
      }
      assert objs[..|objs|] == objs;
    }

    /** The loop over the neighbours of a node that has been taken off the queue. */
    method Enqueue(ghost root: nat, cur: nat, visited: set<nat>, queue: seq<nat>, ghost done: set<nat>)
      returns (visited': set<nat>, queue': seq<nat>)
      requires FlowOk(f, sync) && Frontier(OrderEdges(f), root, visited, queue, done) && cur in done
      ensures Frontier(OrderEdges(f), root, visited', queue', done) && visited <= visited'
      ensures (visited' == visited ==> queue' == queue)
      ensures forall y :: y in Succ(OrderEdges(f), cur) ==> y in visited'
    {
      hide Frontier;
      visited', queue' := visited, queue;
      var kids := At(f.adj, cur);
      DoneAreNodes(f, root, visited, queue, done, cur);
      for k := 0 to |kids|
        invariant Frontier(OrderEdges(f), root, visited', queue', done) && visited <= visited'
        invariant (visited' == visited ==> queue' == queue)
        invariant forall i :: 0 <= i < k ==> kids[i] in visited'
      {
        if kids[k] !in visited' {
          KidQueued(OrderEdges(f), root, visited', queue', done, cur, kids[k]);
          visited' := visited' + {kids[k]};
          queue' := queue' + [kids[k]];
        }
      }
    }

    /** AddHappenBeforeEdges: breadth first from the root. */
    method AddHappenBeforeEdges(root: nat)
      requires root in f.infos && FlowOk(f, sync)
      modifies `sync
      ensures exists reached :: ReachedFrom(OrderEdges(f), root, reached) && EdgesFrom(f, old(sync), reached, sync)
    {
      hide Frontier, DoneClosed, EdgesFrom, FlowOk;
      ghost var g := OrderEdges(f);
      var visited := {root};
      var queue := [root];
      ghost var done: set<nat> := {};
      FrontierStart(f, root, sync);
      while |queue| > 0
        invariant Frontier(g, root, visited, queue, done) && DoneClosed(g, done, visited)
        invariant EdgesFrom(f, old(sync), done, sync) && FlowOk(f, sync)
        decreases f.infos.Keys - visited, |queue|
      {
        var cur := queue[0];
        ghost var was, seen := sync, visited;
        CurFacts(f, root, visited, queue, done);
        queue := queue[1..];
        AddEdge(Produces(f.infos[cur]), cur);
        EdgesNext(f, old(sync), was, sync, done, cur);
        done := done + {cur};
        visited, queue := Enqueue(root, cur, visited, queue, done);
        NodesVisited(f, root, visited, queue, done);
        ClosedNext(g, done - {cur}, cur, seen, visited);
        assert done - {cur} + {cur} == done;
      }
      FrontierEnd(g, root, visited, done);
    }
  }

  ghost predicate ReachedFrom(g: Edges<nat>, root: nat, reached: set<nat>) {
    forall n :: n in reached <==> Reaches(g, root, n)
  }

  /** The queue holds the visited nodes that have not been taken up, each once. */
  ghost predicate Frontier(g: Edges<nat>, root: nat, visited: set<nat>, queue: seq<nat>, done: set<nat>) {
    && root in visited && visited <= g.Keys
    && (forall x :: x in visited <==> x in done || x in queue) && (forall x :: x in visited ==> Reaches(g, root, x))
    && (forall i :: 0 <= i < |queue| ==> queue[i] !in done) && forall i, j :: 0 <= i < j < |queue| ==>
      queue[i] != queue[j]
  }

  ghost predicate DoneClosed(g: Edges<nat>, done: set<nat>, visited: set<nat>) {
    forall x, y :: x in done && y in Succ(g, x) ==> y in visited
  }

  lemma FrontierStart(f: Flow, root: nat, sync: map<nat, seq<nat>>)
    requires root in f.infos
    ensures Frontier(OrderEdges(f), root, {root}, [root], {}) && DoneClosed(OrderEdges(f), {}, {root})
    ensures EdgesFrom(f, sync, {}, sync)
  {
    ReachesSelf(OrderEdges(f), root);
  }

  lemma CurFacts(f: Flow, root: nat, visited: set<nat>, queue: seq<nat>, done: set<nat>)
    requires Frontier(OrderEdges(f), root, visited, queue, done) && |queue| > 0
    ensures queue[0] in f.infos && queue[0] !in done
    ensures Frontier(OrderEdges(f), root, visited, queue[1..], done + {queue[0]})
  {
    forall x
      ensures x in queue <==> x == queue[0] || x in queue[1..]
    {
    }
  }

  lemma DoneAreNodes(f: Flow, root: nat, visited: set<nat>, queue: seq<nat>, done: set<nat>, cur: nat)
    requires Frontier(OrderEdges(f), root, visited, queue, done) && cur in done
    ensures cur in f.infos && forall y :: y in Succ(OrderEdges(f), cur) <==> y in At(f.adj, cur)
  {
  }

  lemma NodesVisited(f: Flow, root: nat, visited: set<nat>, queue: seq<nat>, done: set<nat>)
    requires Frontier(OrderEdges(f), root, visited, queue, done)
    ensures visited <= f.infos.Keys
  {
  }

  lemma KidQueued(g: Edges<nat>, root: nat, visited: set<nat>, queue: seq<nat>, done: set<nat>, cur: nat, kid: nat)
    requires Frontier(g, root, visited, queue, done) && cur in done && kid in Succ(g, cur) && kid in g
    requires kid !in visited
    ensures Frontier(g, root, visited + {kid}, queue + [kid], done)
  {
    ReachesStep(g, cur, kid);
    ReachesTwice(g, root, cur, kid);
  }

  lemma ClosedNext(g: Edges<nat>, done: set<nat>, cur: nat, seen: set<nat>, visited: set<nat>)
    requires DoneClosed(g, done, seen) && seen <= visited && forall y :: y in Succ(g, cur) ==> y in visited
    ensures DoneClosed(g, done + {cur}, visited)
  {
  }

  lemma EdgesNext(f: Flow, sync0: map<nat, seq<nat>>, sync: map<nat, seq<nat>>, sync': map<nat, seq<nat>>,
                  done: set<nat>, cur: nat)
    requires EdgesFrom(f, sync0, done, sync) && cur in f.infos && cur !in done && FlowOk(f, sync)
    requires At(sync', cur) == At(sync, cur) + Targets(f, Produces(f.infos[cur])) && forall n :: n != cur ==>
      At(sync', n) == At(sync, n)
    ensures EdgesFrom(f, sync0, done + {cur}, sync') && FlowOk(f, sync')
  {
    hide FlowOk, Targets;
    forall n | n in f.infos
      ensures At(sync', n) == At(sync0, n) + if n in done + {cur} then Targets(f, Produces(f.infos[n])) else []
    {
      assert n == cur ==> At(sync, n) == At(sync0, n) + [] == At(sync0, n);
    }
    TargetsFlow(f, sync, sync', cur);
  }

  lemma TargetsFlow(f: Flow, sync: map<nat, seq<nat>>, sync': map<nat, seq<nat>>, cur: nat)
    requires FlowOk(f, sync) && cur in f.infos
    requires At(sync', cur) == At(sync, cur) + Targets(f, Produces(f.infos[cur])) && forall n :: n != cur ==>
      At(sync', n) == At(sync, n)
    ensures FlowOk(f, sync')
  {
    hide Targets, Produces;
    TargetsAreNodes(f, sync, Produces(f.infos[cur]));
    forall n, k | n in f.infos && k in At(sync', n)
      ensures k in f.infos
    {
      assert n == cur ==> k in At(sync, n) || k in Targets(f, Produces(f.infos[cur]));
    }
  }

  lemma {:induction false} TargetsAreNodes(f: Flow, sync: map<nat, seq<nat>>, objs: seq<nat>)
    requires FlowOk(f, sync)
    ensures forall k :: k in Targets(f, objs) ==> k in f.infos
  {
    if objs != [] {
      TargetsAreNodes(f, sync, objs[..|objs| - 1]);
      assert forall k :: k in At(f.consumers, objs[|objs| - 1]) ==> k in f.infos;
    }
  }

  lemma FrontierEnd(g: Edges<nat>, root: nat, visited: set<nat>, done: set<nat>)
    requires Frontier(g, root, visited, [], done) && DoneClosed(g, done, visited)
    ensures ReachedFrom(g, root, done)
  {
    assert visited == done;
    forall n | Reaches(g, root, n)
      ensures n in done
    {
      ClosedHolds(g, done, root, n);
    }
  }

  // ------------------------------------------------------------------ queries

  ghost predicate InLoop(f: Flow, a: nat, b: nat)
    requires a in f.infos && b in f.infos
  {
    f.infos[a].gid in f.loops && exists l :: l in f.loops[f.infos[a].gid] && l <= b <= f.loops[f.infos[a].gid][l]
  }

  /** Whether two nodes are ordered: one reaches the other, and neither lies in a loop that
      spawned the other's goroutine. */
  ghost predicate Ordered(f: Flow, sync: map<nat, seq<nat>>, a: nat, b: nat)
    requires a in f.infos && b in f.infos
  {
    !InLoop(f, a, b) && !InLoop(f, b, a) && (Reaches(HbEdges(f, sync), a, b) || Reaches(HbEdges(f, sync), b, a))
  }

  function Key(a: nat, b: nat): (nat, nat) {
    if a > b then (b, a) else (a, b)
  }

  /** Every cached answer is the one that would be computed. */
  ghost predicate CacheOk(f: Flow, sync: map<nat, seq<nat>>, cache: map<(nat, nat), bool>) {
    forall a, b :: Key(a, b) in cache && a in f.infos && b in f.infos ==> CachedRight(f, sync, cache, a, b)
  }

  ghost predicate CachedRight(f: Flow, sync: map<nat, seq<nat>>, cache: map<(nat, nat), bool>, a: nat, b: nat)
    requires a in f.infos && b in f.infos && Key(a, b) in cache
  {
    cache[Key(a, b)] <==> Ordered(f, sync, a, b)
  }

  lemma CachePut(f: Flow, sync: map<nat, seq<nat>>, cache: map<(nat, nat), bool>, a: nat, b: nat, v: bool)
    requires CacheOk(f, sync, cache) && a in f.infos && b in f.infos && (v <==> Ordered(f, sync, a, b))
    ensures CacheOk(f, sync, cache[Key(a, b) := v])
  {
    hide Reaches, HbEdges, InLoop;
    forall c, d | Key(c, d) in cache[Key(a, b) := v] && c in f.infos && d in f.infos
      ensures CachedRight(f, sync, cache[Key(a, b) := v], c, d)
    {
      if Key(c, d) == Key(a, b) {
        assert (c == a && d == b) || (c == b && d == a);
      } else {
        assert CachedRight(f, sync, cache, c, d);
      }
    }
  }

  class Visited {
    var at: set<nat>

    constructor ()
      ensures at == {}
    {
      at := {};
    }
  }

  class Queries {
    const f: Flow
    const sync: map<nat, seq<nat>>
    var cache: map<(nat, nat), bool>

    constructor (f: Flow, sync: map<nat, seq<nat>>)
      ensures this.f == f && this.sync == sync && CacheOk(f, sync, cache)
    {
      this.f, this.sync := f, sync;
      cache := map[];
    }

    /** One of the three loops of DFSVisit; rest is what the later ones will look at. */
    method VisitKids(src: nat, kids: seq<nat>, dest: nat, visited: Visited, ghost was: set<nat>, ghost rest: set<nat>)
      returns (found: bool)
      requires FlowOk(f, sync) && src in f.infos && forall k :: k in kids ==> k in Succ(HbEdges(f, sync), src)
      requires was + {src} <= visited.at <= f.infos.Keys && dest !in visited.at
      requires Searching(HbEdges(f, sync), was, src, Elems(kids) + rest, visited.at)
      modifies visited
      ensures old(visited.at) <= visited.at <= f.infos.Keys
      ensures found ==> Reaches(HbEdges(f, sync), src, dest)
      ensures !found ==> dest !in visited.at && Searching(HbEdges(f, sync), was, src, rest, visited.at)
      decreases f.infos.Keys - visited.at, 1
    {
      hide FlowOk, Searching, Searched, HbEdges, Reaches;
      ghost var g := HbEdges(f, sync);
      assert kids[0..] == kids;
      for k := 0 to |kids|
        invariant old(visited.at) <= visited.at <= f.infos.Keys && dest !in visited.at
        invariant Searching(g, was, src, Elems(kids[k..]) + rest, visited.at)
      {
        ghost var mid := visited.at;
        EdgeToNode(f, sync, src, kids[k]);
        if kids[k] !in visited.at {
          found := DFSVisit(kids[k], dest, visited);
          if found {
            ReachesStep(g, src, kids[k]);
            ReachesTwice(g, src, kids[k], dest);
            return;
          }
        } else {
          SearchNothing(g, mid, kids[k]);
        }
        SearchOne(g, was, src, Elems(kids[k..]) + rest, kids[k], mid, visited.at);
        SearchWider(g, was, src, Elems(kids[k..]) + rest - {kids[k]}, visited.at, Elems(kids[k + 1..]) + rest);
      }
      assert Elems(kids[|kids|..]) + rest == rest;
      found := false;
    }

    /** DFSVisit */
    method DFSVisit(src: nat, dest: nat, visited: Visited) returns (found: bool)
      requires FlowOk(f, sync) && src in f.infos && src !in visited.at && visited.at <= f.infos.Keys
      requires dest !in visited.at
      modifies visited
      ensures old(visited.at) <= visited.at <= f.infos.Keys
      ensures found ==> Reaches(HbEdges(f, sync), src, dest)
      ensures !found ==> dest !in visited.at && Searched(HbEdges(f, sync), old(visited.at), src, visited.at)
      decreases f.infos.Keys - visited.at, 0
    {
      hide FlowOk, Searching, Searched, HbEdges, Reaches;
      ghost var g := HbEdges(f, sync);
      if src == dest {
        ReachesSelf(g, src);
        return true;
      }
      ghost var was := visited.at;
      SearchStart(g, was, src);
      KidsAre(f, sync, src);
      visited.at := visited.at + {src};
      found := VisitKids(src, SyncKids(f, sync, src), dest, visited, was, Elems(Cases(f, src)) + Elems(At(f.adj, src)));
      if found {
        return;
      }
      found := VisitKids(src, Cases(f, src), dest, visited, was, Elems(At(f.adj, src)));
      if found {
        return;
      }
      assert Elems(At(f.adj, src)) + {} == Elems(At(f.adj, src));
      found := VisitKids(src, At(f.adj, src), dest, visited, was, {});
      if !found {
        SearchDone(g, was, src, visited.at);
      }
    }

    /** A search on its own: true exactly when there is a path. */
    method Search(src: nat, dest: nat) returns (found: bool)
      requires FlowOk(f, sync) && src in f.infos && dest in f.infos
      ensures found <==> Reaches(HbEdges(f, sync), src, dest)
    {
      var visited := new Visited();
      found := DFSVisit(src, dest, visited);
      if !found && Reaches(HbEdges(f, sync), src, dest) {
        ClosedHolds(HbEdges(f, sync), visited.at, src, dest);
      }
    }

    /** CheckGoInLoops */
    method CheckGoInLoops(a: nat, b: nat) returns (parallel: bool)
      requires a in f.infos && b in f.infos
      ensures parallel <==> InLoop(f, a, b) || InLoop(f, b, a)
    {
      parallel := Inside(a, b);
      if !parallel {
        parallel := Inside(b, a);
      }
    }

    method Inside(a: nat, b: nat) returns (found: bool)
      requires a in f.infos && b in f.infos
      ensures found <==> InLoop(f, a, b)
    {
      var gid := f.infos[a].gid;
      if gid in f.loops {
        var nloop := f.loops[gid];
        var todo := nloop.Keys;
        while todo != {}
          invariant todo <= nloop.Keys && forall l :: l in nloop && l !in todo ==> !(l <= b <= nloop[l])
          decreases |todo|
        {
          var l :| l in todo;
          if l <= b <= nloop[l] {
            return true;
          }
          todo := todo - {l};
        }
      }
      return false;
    }

    /** DFSCanReach: the answer does not depend on the queries before it, nor on the order of
        the two nodes. */
    method DFSCanReach(a: nat, b: nat) returns (ret: bool)
      requires FlowOk(f, sync) && CacheOk(f, sync, cache) && a in f.infos && b in f.infos
      modifies this
      ensures CacheOk(f, sync, cache) && (ret <==> Ordered(f, sync, a, b))
      ensures Key(a, b) in cache && forall k :: k in old(cache) ==> k in cache && cache[k] == old(cache)[k]
    {
      hide CacheOk, FlowOk, InLoop, Reaches, HbEdges;
      var key := Key(a, b);
      if key in cache {
        CacheGet(f, sync, cache, a, b);
        return cache[key];
      }
      var parallel := CheckGoInLoops(a, b);
      if parallel {
        CachePut(f, sync, cache, a, b, false);
        cache := cache[key := false];
        return false;
      }
      ret := Search(a, b);
      if ret {
        CachePut(f, sync, cache, a, b, ret);
        cache := cache[key := ret];
        return;
      }
      ret := Search(b, a);
      CachePut(f, sync, cache, a, b, ret);
      cache := cache[key := ret];
    }
  }

  lemma CacheGet(f: Flow, sync: map<nat, seq<nat>>, cache: map<(nat, nat), bool>, a: nat, b: nat)
    requires CacheOk(f, sync, cache) && a in f.infos && b in f.infos && Key(a, b) in cache
    ensures CachedRight(f, sync, cache, a, b)
  {
  }

  lemma EdgeToNode(f: Flow, sync: map<nat, seq<nat>>, src: nat, k: nat)
    requires FlowOk(f, sync) && k in Succ(HbEdges(f, sync), src)
    ensures k in f.infos
  {
    EdgesClosed(f, sync);
  }

  lemma KidsAre(f: Flow, sync: map<nat, seq<nat>>, n: nat)
    requires n in f.infos
    ensures Succ(HbEdges(f, sync), n) == Elems(SyncKids(f, sync, n)) + (Elems(Cases(f, n)) + Elems(At(f.adj, n)))
  {
  }
}
