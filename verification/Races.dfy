/** The race table (UpdateRecords, AddRace, DetectRace in concurrency/rfgplus.go). */
module Races {
  import opened HappensBefore

  /** A read or write: its node, the locks held, its source position (0 when there is none). */
  datatype RWNode = RWNode(n: nat, isWrite: bool, lockset: seq<int>, pos: int)

  /** What AddRace reads off the source text: positions whose statement is ignored, and pairs
      of positions that define the same thing. */
  datatype Source = Source(noise: set<int>, clones: set<(int, int)>)

  ghost predicate SourceOk(src: Source) {
    forall p, q :: (p, q) in src.clones ==> (q, p) in src.clones
  }

  function PosKey(p: int, q: int): (int, int) {
    if p > q then (q, p) else (p, q)
  }

  /** k names the positions p and q, the smaller one first. */
  ghost predicate Names(k: (int, int), p: int, q: int) {
    k.0 <= k.1 && ((k.0 == p && k.1 == q) || (k.0 == q && k.1 == p))
  }

  lemma KeyNames(p: int, q: int)
    ensures forall k :: Names(k, p, q) <==> k == PosKey(p, q)
  {
  }

  /** Two pairs of positions have the same key exactly when they are the same two positions. */
  lemma SameKey(p: int, q: int, p': int, q': int)
    ensures PosKey(p, q) == PosKey(p', q') <==> multiset{p, q} == multiset{p', q'}
  {
    assert p in multiset{p, q} && q in multiset{p, q};
    assert p' in multiset{p', q'} && q' in multiset{p', q'};
    assert multiset{p, q} == multiset{p', q'} ==> p in multiset{p', q'} && q in multiset{p', q'};
    assert multiset{p, q} == multiset{p', q'} ==> multiset{p, q} - multiset{p} == multiset{q};
  }

  predicate Listed(src: Source, p: int, q: int) {
    p != 0 && q != 0 && p !in src.noise && q !in src.noise && (p, q) !in src.clones
  }

  ghost predicate Disjoint(a: seq<int>, b: seq<int>) {
    forall x :: x in a ==> x !in b
  }

  ghost predicate RwsOk(f: Flow, rws: map<nat, RWNode>) {
    forall a :: a in rws ==> rws[a].n in f.infos
  }

  /** Two accesses that race, and whose race is listed: different goroutines, no common lock,
      not ordered. */
  ghost predicate Hit(f: Flow, sync: map<nat, seq<nat>>, src: Source, rws: map<nat, RWNode>, a: nat, b: nat) {
    && a in rws && b in rws && rws[a].n in f.infos && rws[b].n in f.infos
    && f.infos[rws[a].n].gid != f.infos[rws[b].n].gid && Disjoint(rws[a].lockset, rws[b].lockset)
    && !Ordered(f, sync, rws[a].n, rws[b].n) && Listed(src, rws[a].pos, rws[b].pos)
  }

  lemma HitSymmetric(f: Flow, sync: map<nat, seq<nat>>, src: Source, rws: map<nat, RWNode>, a: nat, b: nat)
    requires SourceOk(src)
    ensures Hit(f, sync, src, rws, a, b) <==> Hit(f, sync, src, rws, b, a)
  {
  }

  /** The accesses a and b have been looked at, race, and are at the places that k names. */
  ghost predicate EntryFor(f: Flow, sync: map<nat, seq<nat>>, src: Source, rws: map<nat, RWNode>,
                           checked: set<(nat, nat)>, k: (int, int), a: nat, b: nat) {
    (a, b) in checked && a in rws && b in rws && Hit(f, sync, src, rws, a, b) && Names(k, rws[a].pos, rws[b].pos)
  }

  /** Key k is that of a pair that was looked at and races. */
  ghost predicate FromPair(f: Flow, sync: map<nat, seq<nat>>, src: Source, rws: map<nat, RWNode>,
                           checked: set<(nat, nat)>, k: (int, int)) {
    exists a, b :: EntryFor(f, sync, src, rws, checked, k, a, b)
  }

  /** The keys are those of the racing pairs among the pairs looked at, and each has such a pair. */
  ghost predicate RacesAre(f: Flow, sync: map<nat, seq<nat>>, src: Source, rws: map<nat, RWNode>,
                           checked: set<(nat, nat)>, races: map<(int, int), (nat, nat)>) {
    && (forall k :: k in races <==> FromPair(f, sync, src, rws, checked, k))
    && forall k :: k in races ==> EntryFor(f, sync, src, rws, checked, k, races[k].0, races[k].1)
  }

  lemma PairChecked(f: Flow, sync: map<nat, seq<nat>>, src: Source, rws: map<nat, RWNode>, checked: set<(nat, nat)>,
                    races: map<(int, int), (nat, nat)>, races': map<(int, int), (nat, nat)>, a: nat, b: nat)
    requires RacesAre(f, sync, src, rws, checked, races) && a in rws && b in rws
    requires forall k ::
      k in races' <==> k in races || (Hit(f, sync, src, rws, a, b) && Names(k, rws[a].pos, rws[b].pos))
    requires forall k :: k in races' ==> races'[k] == if k in races then races[k] else (a, b)
    ensures RacesAre(f, sync, src, rws, checked + {(a, b)}, races')
  {
    hide Hit, Names;
    forall k
      ensures k in races' <==> FromPair(f, sync, src, rws, checked + {(a, b)}, k)
    {
      assert k in races <==> FromPair(f, sync, src, rws, checked, k);
      if FromPair(f, sync, src, rws, checked, k) {
        var c: nat, d: nat :| EntryFor(f, sync, src, rws, checked, k, c, d);
        assert EntryFor(f, sync, src, rws, checked + {(a, b)}, k, c, d);
      }
      if FromPair(f, sync, src, rws, checked + {(a, b)}, k) {
        var c: nat, d: nat :| EntryFor(f, sync, src, rws, checked + {(a, b)}, k, c, d);
        assert (c, d) != (a, b) ==> EntryFor(f, sync, src, rws, checked, k, c, d);
      }
      assert (a, b) in checked + {(a, b)};
      assert k in races' && k !in races ==> EntryFor(f, sync, src, rws, checked + {(a, b)}, k, a, b);
    }
  }

  /** Both accesses are recorded for one object, the first as a write. */
  ghost predicate Share(rws: map<nat, RWNode>, recorded: set<(nat, nat)>, a: nat, b: nat) {
    a in rws && rws[a].isWrite && exists o :: (o, a) in recorded && (o, b) in recorded
  }

  function Get(index: map<nat, set<nat>>, o: nat): set<nat> {
    if o in index then index[o] else {}
  }

  /** The index holds exactly what was recorded, reads and writes apart. */
  ghost predicate IndexRight(rws: map<nat, RWNode>, writes: map<nat, set<nat>>, readers: map<nat, set<nat>>,
                             recorded: set<(nat, nat)>) {
    && (forall o: nat, a: nat :: a in Get(writes, o) <==> (o, a) in recorded && a in rws && rws[a].isWrite)
    && (forall o: nat, a: nat :: a in Get(readers, o) <==> (o, a) in recorded && a in rws && !rws[a].isWrite)
    && forall o, a :: (o, a) in recorded ==> a in rws
  }

  lemma IndexNext(rws: map<nat, RWNode>, writes: map<nat, set<nat>>, readers: map<nat, set<nat>>,
                  recorded: set<(nat, nat)>, obj: nat, node: nat)
    requires IndexRight(rws, writes, readers, recorded) && node in rws
    ensures rws[node].isWrite ==>
      IndexRight(rws, writes[obj := Get(writes, obj) + {node}], readers, recorded + {(obj, node)})
    ensures !rws[node].isWrite ==>
      IndexRight(rws, writes, readers[obj := Get(readers, obj) + {node}], recorded + {(obj, node)})
  {
    if rws[node].isWrite {
      var w := writes[obj := Get(writes, obj) + {node}];
      forall o: nat, a: nat
        ensures a in Get(w, o) <==> a in Get(writes, o) || (o == obj && a == node)
      {
      }
    } else {
      var r := readers[obj := Get(readers, obj) + {node}];
      forall o: nat, a: nat
        ensures a in Get(r, o) <==> a in Get(readers, o) || (o == obj && a == node)
      {
      }
    }
  }

  ghost function Records(pts: seq<nat>, node: nat): set<(nat, nat)> {
    set o | o in pts :: (o, node)
  }

  lemma NoRecords(pts: seq<nat>, node: nat)
    ensures Records(pts[..0], node) == {}
  {
  }

  lemma RecordsNext(pts: seq<nat>, i: nat, node: nat)
    requires i < |pts|
    ensures Records(pts[..i + 1], node) == Records(pts[..i], node) + {(pts[i], node)}
  {
    assert pts[..i + 1] == pts[..i] + [pts[i]];
    assert pts[..i + 1][i] == pts[i] && pts[i] in pts[..i + 1];
    assert (pts[i], node) in Records(pts[..i + 1], node);
  }

  lemma CommonAt(a: seq<int>, b: seq<int>, i: nat)
    requires i < |b| && b[i] in a
    ensures !Disjoint(a, b)
  {
    var x := b[i];
    assert x in a && x in b;
  }

  method HasCommonIntArray(a: seq<int>, b: seq<int>) returns (common: bool)
    ensures common <==> !Disjoint(a, b)
  {
    var elements: set<int> := {};
    for i := 0 to |a|
      invariant forall x :: x in elements <==> x in a[..i]
    {
      elements := elements + {a[i]};
    }
    assert a[..|a|] == a;
    assert forall x :: x in elements <==> x in a;
    for i := 0 to |b|
      invariant forall k :: 0 <= k < i ==> b[k] !in elements
    {
      if b[i] in elements {
        CommonAt(a, b, i);
        return true;
      }
    }
    return false;
  }

  class RFGPlusGraph {
    const rws: map<nat, RWNode>
    const src: Source
    const q: Queries
    var writeNodes: map<nat, set<nat>>
    var readNodes: map<nat, set<nat>>
    var races: map<(int, int), (nat, nat)>
    /** Object and access, for every access recorded. */
    ghost var recorded: set<(nat, nat)>
    /** The pairs of accesses that DetectRace has looked at. */
    ghost var checked: set<(nat, nat)>

    ghost predicate Ready()
      reads this, q
    {
      FlowOk(q.f, q.sync) && CacheOk(q.f, q.sync, q.cache) && RwsOk(q.f, rws) && SourceOk(src) &&
        IndexRight(rws, writeNodes, readNodes, recorded)
    }

    constructor (rws: map<nat, RWNode>, src: Source, q: Queries)
      requires FlowOk(q.f, q.sync) && CacheOk(q.f, q.sync, q.cache) && RwsOk(q.f, rws) && SourceOk(src)
      ensures this.rws == rws && this.src == src && this.q == q && Ready() && recorded == {} && races == map[]
      ensures checked == {}
    {
      this.rws, this.src, this.q := rws, src, q;
      writeNodes, readNodes, races := map[], map[], map[];
      recorded, checked := {}, {};
    }

    /** UpdateRecords */
    method UpdateRecords(pts: seq<nat>, node: nat)
      requires Ready() && node in rws
      modifies `writeNodes, `readNodes, `recorded
      ensures Ready() && recorded == old(recorded) + Records(pts, node)
    {
      hide FlowOk, CacheOk, IndexRight, Records;
      NoRecords(pts, node);
      for i := 0 to |pts|
        invariant Ready() && recorded == old(recorded) + Records(pts[..i], node)
      {
        var obj := pts[i];
        RecordsNext(pts, i, node);
        IndexNext(rws, writeNodes, readNodes, recorded, obj, node);
        if rws[node].isWrite {
          writeNodes := writeNodes[obj := Get(writeNodes, obj) + {node}];
        } else {
          readNodes := readNodes[obj := Get(readNodes, obj) + {node}];
        }
        recorded := recorded + {(obj, node)};
      }
      assert pts[..|pts|] == pts;
    }

    /** AddRace */
    method AddRace(a: nat, b: nat)
      requires a in rws && b in rws
      modifies `races
      ensures forall k :: k in races <==>
        k in old(races) || (Listed(src, rws[a].pos, rws[b].pos) && Names(k, rws[a].pos, rws[b].pos))
      ensures forall k :: k in old(races) ==> races[k] == old(races)[k]
      ensures forall k :: k in races && k !in old(races) ==> races[k] == (a, b)
    {
      var pa, pb := rws[a].pos, rws[b].pos;
      if pa == 0 || pb == 0 {
        return;
      }
      var key := PosKey(pa, pb);
      KeyNames(pa, pb);
      if key in races {
        return;
      }
      if pa in src.noise || pb in src.noise {
        return;
      }
      if (pa, pb) in src.clones {
        return;
      }
      races := races[key := (a, b)];
    }

    /** The body of the innermost loops of DetectRace, for one pair. */
    method Check(a: nat, b: nat)
      requires Ready() && RacesAre(q.f, q.sync, src, rws, checked, races) && a in rws && b in rws
      modifies `races, `checked, q
      ensures Ready() && RacesAre(q.f, q.sync, src, rws, checked, races) && checked == old(checked) + {(a, b)}
    {
      hide FlowOk, CacheOk, IndexRight, Ordered, Disjoint, RacesAre, SourceOk;
      ghost var was := races;
      if q.f.infos[rws[a].n].gid != q.f.infos[rws[b].n].gid {
        var common := HasCommonIntArray(rws[a].lockset, rws[b].lockset);
        if !common {
          var ordered := q.DFSCanReach(rws[a].n, rws[b].n);
          if !ordered {
            AddRace(a, b);
          }
        }
      }
      PairChecked(q.f, q.sync, src, rws, checked, was, races, a, b);
      checked := checked + {(a, b)};
    }

    /** The accesses recorded for one object, in whatever order the map gives them. */
    method Listing(s: set<nat>) returns (nodes: seq<nat>)
      ensures forall x :: x in nodes <==> x in s
    {
      nodes := [];
      var todo := s;
      while todo != {}
        invariant todo <= s && forall x :: x in nodes <==> x in s && x !in todo
        decreases |todo|
      {
        var x :| x in todo;
        todo := todo - {x};
        nodes := nodes + [x];
      }
    }

    /** The loop of DetectRace over the writes of an object. */
    method ObjectRaces(obj: nat)
      requires Ready() && RacesAre(q.f, q.sync, src, rws, checked, races) && AllShare(rws, recorded, checked)
      modifies `races, `checked, q
      ensures Ready() && RacesAre(q.f, q.sync, src, rws, checked, races) && AllShare(rws, recorded, checked)
      ensures old(checked) <= checked && Covered(Get(writeNodes, obj), Get(readNodes, obj), checked)
    {
      hide FlowOk, CacheOk, IndexRight, RacesAre, SourceOk, AllShare, RwsOk;
      var wnodes := Listing(Get(writeNodes, obj));
      var rnodes := Listing(Get(readNodes, obj));
      ghost var was := checked;
      for i := 0 to |wnodes|
        invariant Ready() && RacesAre(q.f, q.sync, src, rws, checked, races) && AllShare(rws, recorded, checked)
        invariant was <= checked
        invariant forall x, y :: 0 <= x < i && 0 <= y < |rnodes| ==> (wnodes[x], rnodes[y]) in checked
        invariant forall x, y :: 0 <= x < i && x < y < |wnodes| ==> (wnodes[x], wnodes[y]) in checked
      {
        for j := 0 to |rnodes|
          invariant Ready() && RacesAre(q.f, q.sync, src, rws, checked, races) && AllShare(rws, recorded, checked)
          invariant was <= checked
          invariant forall x, y :: 0 <= x < i && 0 <= y < |rnodes| ==> (wnodes[x], rnodes[y]) in checked
          invariant forall x, y :: 0 <= x < i && x < y < |wnodes| ==> (wnodes[x], wnodes[y]) in checked
          invariant forall y :: 0 <= y < j ==> (wnodes[i], rnodes[y]) in checked
        {
          PairShares(rws, writeNodes, readNodes, recorded, checked, obj, wnodes[i], rnodes[j]);
          Check(wnodes[i], rnodes[j]);
        }
        for j := i + 1 to |wnodes|
          invariant Ready() && RacesAre(q.f, q.sync, src, rws, checked, races) && AllShare(rws, recorded, checked)
          invariant was <= checked
          invariant forall x, y :: 0 <= x <= i && 0 <= y < |rnodes| ==> (wnodes[x], rnodes[y]) in checked
          invariant forall x, y :: 0 <= x < i && x < y < |wnodes| ==> (wnodes[x], wnodes[y]) in checked
          invariant forall y :: i < y < j ==> (wnodes[i], wnodes[y]) in checked
        {
          PairShares(rws, writeNodes, readNodes, recorded, checked, obj, wnodes[i], wnodes[j]);
          Check(wnodes[i], wnodes[j]);
        }
      }
    }

    /** DetectRace: the table's keys are exactly the position pairs of accesses that share an
        object, at least one of them a write, and race; in whatever order the maps are walked. */
    method DetectRace()
      requires Ready() && races == map[] && checked == {}
      modifies `races, `checked, q
      ensures forall k :: k in races <==> RaceAt(q.f, q.sync, src, rws, recorded, k)
      ensures forall k :: k in races ==> RaceOf(q.f, q.sync, src, rws, recorded, k, races[k].0, races[k].1)
    {
      hide FlowOk, CacheOk, IndexRight, RacesAre, SourceOk, AllShare, RwsOk, Covered, RaceAt, RaceOf;
      NothingChecked(q.f, q.sync, src, rws, recorded);
      assert races.Keys == {};
      var todo := writeNodes.Keys;
      while |todo| > 0
        invariant Ready() && RacesAre(q.f, q.sync, src, rws, checked, races) && AllShare(rws, recorded, checked)
        invariant todo <= writeNodes.Keys
        invariant forall o :: o in writeNodes && o !in todo ==> Covered(Get(writeNodes, o), Get(readNodes, o), checked)
        decreases |todo|
      {
        assert exists o: nat :: o in todo;
        var obj :| obj in todo;
        ghost var was := checked;
        ObjectRaces(obj);
        forall o | o in writeNodes && o !in todo
          ensures Covered(Get(writeNodes, o), Get(readNodes, o), checked)
        {
          StillCovered(Get(writeNodes, o), Get(readNodes, o), was, checked);
        }
        todo := todo - {obj};
      }
      forall k
        ensures k in races <==> RaceAt(q.f, q.sync, src, rws, recorded, k)
        ensures k in races ==> RaceOf(q.f, q.sync, src, rws, recorded, k, races[k].0, races[k].1)
      {
        AllPairsChecked(q.f, q.sync, src, rws, writeNodes, readNodes, recorded, checked, races, k);
      }
    }
  }

  /** The accesses a and b share an object, one side writing, race, and are at the places that k names. */
  ghost predicate RaceOf(f: Flow, sync: map<nat, seq<nat>>, src: Source, rws: map<nat, RWNode>,
                         recorded: set<(nat, nat)>, k: (int, int), a: nat, b: nat) {
    && Share(rws, recorded, a, b) && a in rws && b in rws && Hit(f, sync, src, rws, a, b)
    && Names(k, rws[a].pos, rws[b].pos)
  }

  /** k names the places of a race. */
  ghost predicate RaceAt(f: Flow, sync: map<nat, seq<nat>>, src: Source, rws: map<nat, RWNode>,
                         recorded: set<(nat, nat)>, k: (int, int)) {
    exists a, b :: RaceOf(f, sync, src, rws, recorded, k, a, b)
  }

  ghost predicate AllShare(rws: map<nat, RWNode>, recorded: set<(nat, nat)>, checked: set<(nat, nat)>) {
    forall a, b :: (a, b) in checked ==> Share(rws, recorded, a, b)
  }

  /** Every write has been paired with every read, and with every other write one way round. */
  ghost predicate Covered(writes: set<nat>, readers: set<nat>, checked: set<(nat, nat)>) {
    && (forall a, b :: a in writes && b in readers ==> (a, b) in checked)
    && forall a, b :: a in writes && b in writes && a != b ==> (a, b) in checked || (b, a) in checked
  }

  lemma StillCovered(writes: set<nat>, readers: set<nat>, was: set<(nat, nat)>, checked: set<(nat, nat)>)
    requires Covered(writes, readers, was) && was <= checked
    ensures Covered(writes, readers, checked)
  {
  }

  lemma NothingChecked(f: Flow, sync: map<nat, seq<nat>>, src: Source, rws: map<nat, RWNode>, recorded: set<(nat, nat)>)
    ensures RacesAre(f, sync, src, rws, {}, map[]) && AllShare(rws, recorded, {})
  {
  }

  lemma PairShares(rws: map<nat, RWNode>, writes: map<nat, set<nat>>, readers: map<nat, set<nat>>,
                   recorded: set<(nat, nat)>, checked: set<(nat, nat)>, obj: nat, a: nat, b: nat)
    requires IndexRight(rws, writes, readers, recorded) && AllShare(rws, recorded, checked)
    requires a in Get(writes, obj) && (b in Get(readers, obj) || b in Get(writes, obj))
    ensures a in rws && b in rws && AllShare(rws, recorded, checked + {(a, b)})
  {
    assert (obj, a) in recorded && (obj, b) in recorded;
  }

  lemma AllPairsChecked(f: Flow, sync: map<nat, seq<nat>>, src: Source, rws: map<nat, RWNode>,
                        writes: map<nat, set<nat>>, readers: map<nat, set<nat>>, recorded: set<(nat, nat)>,
                        checked: set<(nat, nat)>, races: map<(int, int), (nat, nat)>, k: (int, int))
    requires IndexRight(rws, writes, readers, recorded) && AllShare(rws, recorded, checked) && SourceOk(src)
    requires forall o :: o in writes ==> Covered(Get(writes, o), Get(readers, o), checked)
    requires RacesAre(f, sync, src, rws, checked, races)
    ensures k in races <==> RaceAt(f, sync, src, rws, recorded, k)
    ensures k in races ==> RaceOf(f, sync, src, rws, recorded, k, races[k].0, races[k].1)
  {
    hide Hit, Names, IndexRight, AllShare, EntryFor, RaceOf, Covered, SourceOk;
    if RaceAt(f, sync, src, rws, recorded, k) {
      var a: nat, b: nat :| RaceOf(f, sync, src, rws, recorded, k, a, b);
      RaceEntered(f, sync, src, rws, writes, readers, recorded, checked, k, a, b);
    }
    if k in races {
      EntryIsRace(f, sync, src, rws, recorded, checked, k, races[k].0, races[k].1);
    }
  }

  lemma EntryIsRace(f: Flow, sync: map<nat, seq<nat>>, src: Source, rws: map<nat, RWNode>, recorded: set<(nat, nat)>,
                    checked: set<(nat, nat)>, k: (int, int), a: nat, b: nat)
    requires AllShare(rws, recorded, checked) && EntryFor(f, sync, src, rws, checked, k, a, b)
    ensures RaceOf(f, sync, src, rws, recorded, k, a, b)
  {
    hide Hit, Names;
  }

  /** A race has been looked at, one way round. */
  lemma RaceEntered(f: Flow, sync: map<nat, seq<nat>>, src: Source, rws: map<nat, RWNode>, writes: map<nat, set<nat>>,
                    readers: map<nat, set<nat>>, recorded: set<(nat, nat)>, checked: set<(nat, nat)>, k: (int, int),
                    a: nat, b: nat)
    requires IndexRight(rws, writes, readers, recorded) && SourceOk(src)
    requires forall o :: o in writes ==> Covered(Get(writes, o), Get(readers, o), checked)
    requires RaceOf(f, sync, src, rws, recorded, k, a, b)
    ensures EntryFor(f, sync, src, rws, checked, k, a, b) || EntryFor(f, sync, src, rws, checked, k, b, a)
  {
    hide Hit, Names;
    var o: nat :| (o, a) in recorded && (o, b) in recorded;
    HitSymmetric(f, sync, src, rws, a, b);
    NamesEither(k, rws[a].pos, rws[b].pos);
    DifferentGoroutines(f, sync, src, rws, a, b);
    assert a in Get(writes, o) && (b in Get(writes, o) || b in Get(readers, o));
    assert Covered(Get(writes, o), Get(readers, o), checked);
    assert (a, b) in checked || (b, a) in checked;
  }

  lemma NamesEither(k: (int, int), p: int, q: int)
    ensures Names(k, p, q) <==> Names(k, q, p)
  {
  }

  lemma DifferentGoroutines(f: Flow, sync: map<nat, seq<nat>>, src: Source, rws: map<nat, RWNode>, a: nat, b: nat)
    requires Hit(f, sync, src, rws, a, b)
    ensures a != b && a in rws && b in rws
  {
  }
}
