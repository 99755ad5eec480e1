/** The orders the index is sorted by. */
module IndexOrders {
  import opened Runs
  import opened Spots

  datatype Pak = Pak(path: string, name: string)

  datatype File = File(name: string, pak: Pak)

  datatype Spot = Spot(file: File, info: SpotInfo)

  /** All occurrences in one file, grouped by kind. */
  datatype FileRun = FileRun(file: File, groups: seq<seq<SpotInfo>>)

  datatype PakRun = PakRun(pak: Pak, files: seq<FileRun>)

  /** The order of strings: compare the first characters that differ. */
  predicate StringLess(a: string, b: string) {
    b != [] && (a == [] || a[0] < b[0] || (a[0] == b[0] && StringLess(a[1..], b[1..])))
  }

  lemma {:induction false} StringLessIrreflexive(a: string)
    ensures !StringLess(a, a)
  {
    if a != [] {
      StringLessIrreflexive(a[1..]);
    }
  }

  lemma {:induction false} StringLessTransitive(a: string, b: string, c: string)
    requires StringLess(a, b) && StringLess(b, c)
    ensures StringLess(a, c)
  {
    if a != [] && a[0] == b[0] && b[0] == c[0] {
      StringLessTransitive(a[1..], b[1..], c[1..]);
    }
  }

  lemma {:induction false} StringLessTotal(a: string, b: string)
    ensures StringLess(a, b) || StringLess(b, a) || a == b
  {
    if a != [] && b != [] && a[0] == b[0] {
      StringLessTotal(a[1..], b[1..]);
      assert a == [a[0]] + a[1..] && b == [b[0]] + b[1..];
    }
  }

  /** What the order is: the strings agree up to some place, and there a ends or has the smaller
      character. */
  lemma {:induction false} StringLessMeans(a: string, b: string)
    ensures StringLess(a, b) <==> exists k: nat :: SplitsAt(a, b, k)
  {
    forall k: nat | SplitsAt(a, b, k) && k > 0
      ensures a != [] && a[0] == b[0]
    {
      assert a[..k][0] == b[..k][0];
    }
    if b != [] && a == [] {
      assert SplitsAt(a, b, 0);
    } else if b != [] && a[0] < b[0] {
      assert SplitsAt(a, b, 0);
    } else if b != [] && a[0] == b[0] {
      StringLessMeans(a[1..], b[1..]);
      if k: nat :| SplitsAt(a[1..], b[1..], k) {
        assert a[..k + 1] == [a[0]] + a[1..][..k] && b[..k + 1] == [b[0]] + b[1..][..k];
        assert SplitsAt(a, b, k + 1);
      }
      if k: nat :| SplitsAt(a, b, k) {
        assert a[1..][..k - 1] == a[..k][1..] && b[1..][..k - 1] == b[..k][1..];
        assert SplitsAt(a[1..], b[1..], k - 1);
      }
    }
  }

  ghost predicate SplitsAt(a: string, b: string, k: nat) {
    k <= |a| && k < |b| && a[..k] == b[..k] && (k == |a| || a[k] < b[k])
  }

  /** Two keys compared one after the other. */
  predicate PairLess(a0: string, a1: string, b0: string, b1: string) {
    StringLess(a0, b0) || (a0 == b0 && StringLess(a1, b1))
  }

  lemma PairLessIrreflexive(a0: string, a1: string)
    ensures !PairLess(a0, a1, a0, a1)
  {
    StringLessIrreflexive(a0);
    StringLessIrreflexive(a1);
  }

  lemma PairLessTransitive(a0: string, a1: string, b0: string, b1: string, c0: string, c1: string)
    requires PairLess(a0, a1, b0, b1) && PairLess(b0, b1, c0, c1)
    ensures PairLess(a0, a1, c0, c1)
  {
    hide StringLess;
    if StringLess(a0, b0) && StringLess(b0, c0) {
      StringLessTransitive(a0, b0, c0);
    } else if StringLess(a1, b1) && StringLess(b1, c1) {
      StringLessTransitive(a1, b1, c1);
    }
  }

  lemma PairLessTotal(a0: string, a1: string, b0: string, b1: string)
    ensures PairLess(a0, a1, b0, b1) || PairLess(b0, b1, a0, a1) || (a0 == b0 && a1 == b1)
  {
    StringLessTotal(a0, b0);
    StringLessTotal(a1, b1);
  }

  predicate LessKind(x: SpotInfo, y: SpotInfo) {
    Kind(x) < Kind(y)
  }

  predicate LessLori(x: SpotInfo, y: SpotInfo) {
    Lori(x) < Lori(y)
  }

  /** Packages by name, then by path. */
  predicate LessPak(p: Pak, q: Pak) {
    PairLess(p.name, p.path, q.name, q.path)
  }

  /** Spots by file path: the directory, then the name in it. */
  predicate LessSpot(x: Spot, y: Spot) {
    PairLess(x.file.pak.path, x.file.name, y.file.pak.path, y.file.name)
  }

  predicate LessFileRun(x: FileRun, y: FileRun) {
    LessPak(x.file.pak, y.file.pak)
  }

  predicate LessFileName(x: FileRun, y: FileRun) {
    StringLess(x.file.name, y.file.name)
  }

  predicate LessPakRun(x: PakRun, y: PakRun) {
    LessPak(x.pak, y.pak)
  }

  ghost predicate Precedes(a: SpotKind, b: SpotKind) {
    exists i, j :: 0 <= i < j < |Kinds| && Kinds[i] == a && Kinds[j] == b
  }

  lemma NumberOrders()
    ensures StrictWeak(LessKind) && StrictWeak(LessLori)
  {
  }

  /** Kinds are sorted in the order in which they are declared. */
  lemma KindOrder(x: SpotInfo, y: SpotInfo)
    ensures LessKind(x, y) <==> Precedes(KindOf(x), KindOf(y))
  {
    assert Kinds[Kind(x)] == KindOf(x) && Kinds[Kind(y)] == KindOf(y);
    if i, j :| 0 <= i < j < |Kinds| && Kinds[i] == KindOf(x) && Kinds[j] == KindOf(y) {
      CodesInOrder(KindOf(x), i);
      CodesInOrder(KindOf(x), Kind(x));
      CodesInOrder(KindOf(y), j);
      CodesInOrder(KindOf(y), Kind(y));
    }
  }

  /** Packages go by name first, spots by directory first. */
  lemma KeyOrder(p: Pak, q: Pak, x: Spot, y: Spot)
    ensures StringLess(p.name, q.name) ==> LessPak(p, q) && !LessPak(q, p)
    ensures p.name == q.name ==> (LessPak(p, q) <==> StringLess(p.path, q.path))
    ensures StringLess(x.file.pak.path, y.file.pak.path) ==> LessSpot(x, y) && !LessSpot(y, x)
    ensures x.file.pak.path == y.file.pak.path ==> (LessSpot(x, y) <==> StringLess(x.file.name, y.file.name))
  {
    hide StringLess;
    StringLessApart(p.name, q.name);
    StringLessApart(x.file.pak.path, y.file.pak.path);
  }

  lemma StringLessApart(a: string, b: string)
    ensures StringLess(a, b) ==> !StringLess(b, a) && a != b
  {
    StringLessIrreflexive(a);
    if StringLess(a, b) && StringLess(b, a) {
      StringLessTransitive(a, b, a);
    }
  }

  lemma PakOrder()
    ensures StrictWeak(LessPak) && forall p, q :: !LessPak(p, q) && !LessPak(q, p) ==> p == q
  {
    hide PairLess;
    forall p
      ensures !LessPak(p, p)
    {
      PairLessIrreflexive(p.name, p.path);
    }
    forall p, q, r | LessPak(p, q) && LessPak(q, r)
      ensures LessPak(p, r)
    {
      PairLessTransitive(p.name, p.path, q.name, q.path, r.name, r.path);
    }
    forall p, q | !LessPak(p, q) && !LessPak(q, p)
      ensures p == q
    {
      PairLessTotal(p.name, p.path, q.name, q.path);
    }
    forall p, q, r | LessPak(p, r)
      ensures LessPak(p, q) || LessPak(q, r)
    {
      if !LessPak(p, q) && LessPak(q, p) {
        assert LessPak(q, r);
      }
    }
  }

  lemma FileRunOrder()
    ensures StrictWeak(LessFileRun) && StrictWeak(LessPakRun)
  {
    hide LessPak;
    PakOrder();
  }

  lemma FileNameOrder()
    ensures StrictWeak(LessFileName)
    ensures forall x, y :: !LessFileName(x, y) && !LessFileName(y, x) ==> x.file.name == y.file.name
  {
    hide StringLess;
    forall x
      ensures !LessFileName(x, x)
    {
      StringLessIrreflexive(x.file.name);
    }
    forall x, y, z | LessFileName(x, y) && LessFileName(y, z)
      ensures LessFileName(x, z)
    {
      StringLessTransitive(x.file.name, y.file.name, z.file.name);
    }
    forall x, y
      ensures LessFileName(x, y) || LessFileName(y, x) || x.file.name == y.file.name
    {
      StringLessTotal(x.file.name, y.file.name);
    }
    forall x, y, z | LessFileName(x, z)
      ensures LessFileName(x, y) || LessFileName(y, z)
    {
      if !LessFileName(x, y) && LessFileName(y, x) {
        assert LessFileName(y, z);
      }
    }
  }

  /** Spots that are not told apart have the same path and file name. */
  lemma SpotOrder()
    ensures StrictWeak(LessSpot)
    ensures forall x, y :: !LessSpot(x, y) && !LessSpot(y, x) ==> SamePath(x.file, y.file)
  {
    hide PairLess;
    forall x
      ensures !LessSpot(x, x)
    {
      PairLessIrreflexive(x.file.pak.path, x.file.name);
    }
    forall x, y, z | LessSpot(x, y) && LessSpot(y, z)
      ensures LessSpot(x, z)
    {
      PairLessTransitive(x.file.pak.path, x.file.name, y.file.pak.path, y.file.name, z.file.pak.path, z.file.name);
    }
    forall x, y
      ensures LessSpot(x, y) || LessSpot(y, x) || SamePath(x.file, y.file)
    {
      PairLessTotal(x.file.pak.path, x.file.name, y.file.pak.path, y.file.name);
    }
    forall x, y, z | LessSpot(x, z)
      ensures LessSpot(x, y) || LessSpot(y, z)
    {
      if !LessSpot(x, y) && LessSpot(y, x) {
        assert LessSpot(y, z);
      }
    }
  }

  predicate SamePath(f: File, g: File) {
    f.pak.path == g.pak.path && f.name == g.name
  }
}

/** The three-level reduction of a list of spots (godoc/index.go). */
module Indexing {
  import opened Runs
  import opened Spots
  import opened IndexOrders

  // ---------- one kind in one file ----------

  predicate Alike(x: SpotInfo, y: SpotInfo) {
    Kind(x) == Kind(y) && IsIndex(x) == IsIndex(y)
  }

  ghost predicate AllAlike(s: seq<SpotInfo>) {
    forall i, j :: 0 <= i < |s| && 0 <= j < |s| ==> Alike(s[i], s[j])
  }

  /** A finished kind run: one kind, every line or index once, in order. */
  ghost predicate KindRunOk(run: seq<SpotInfo>) {
    AllAlike(run) && forall i, j :: 0 <= i < j < |run| ==> Lori(run[i]) < Lori(run[j])
  }

  /** s without the entries equal to the one kept before them, the first of which is prev. */
  function Distinct(s: seq<SpotInfo>, prev: SpotInfo): seq<SpotInfo> {
    if s == [] then []
    else if s[0] != prev then [s[0]] + Distinct(s[1..], s[0])
    else Distinct(s[1..], prev)
  }

  /** The in-place loop of newKindRun: the distinct entries move to the front. */
  method Compact(run: array<SpotInfo>) returns (k: nat)
    modifies run
    ensures k <= run.Length && run[..k] == Distinct(old(run[..]), SENTINEL)
  {
    hide Distinct;
    k := 0;
    var prev := SENTINEL;
    assert run[..0] == [] && run[0..] == run[..];
    for i := 0 to run.Length
      invariant k <= i && run[i..] == old(run[..])[i..]
      invariant run[..k] + Distinct(run[i..], prev) == Distinct(old(run[..]), SENTINEL)
    {
      var x := run[i];
      ghost var front, rest := run[..k], run[i..];
      assert rest[0] == x;
      DistinctStep(rest, prev);
      if x != prev {
        run[k] := x;
        k := k + 1;
        prev := x;
        assert run[..k] == front + [x];
      }
      assert run[i + 1..] == rest[1..];
    }
    assert run[run.Length..] == [];
    DistinctStep([], prev);
  }

  lemma DistinctStep(s: seq<SpotInfo>, prev: SpotInfo)
    ensures s == [] ==> Distinct(s, prev) == []
    ensures s != [] && s[0] != prev ==> Distinct(s, prev) == [s[0]] + Distinct(s[1..], s[0])
    ensures s != [] && s[0] == prev ==> Distinct(s, prev) == Distinct(s[1..], prev)
  {
  }

  /** The library sort of an array, by lori. */
  method SortByLori(run: array<SpotInfo>)
    modifies run
    ensures Sorted(run[..], LessLori) && multiset(run[..]) == multiset(old(run[..]))
  {
    NumberOrders();
    var t := Sort(run[..], LessLori);
    forall i | 0 <= i < run.Length {
      run[i] := t[i];
    }
    assert run[..] == t;
  }

  /** After sorting, dropping repeated neighbours drops exactly the repetitions. */
  lemma {:induction false} DistinctAfter(s: seq<SpotInfo>, prev: SpotInfo)
    requires Sorted(s, LessLori) && AllAlike([prev] + s) && forall i :: 0 <= i < |s| ==> Lori(prev) <= Lori(s[i])
    ensures KindRunOk([prev] + Distinct(s, prev))
    ensures forall x :: x in Distinct(s, prev) <==> x in s && x != prev
  {
    if s != [] {
      var first := s[0];
      assert [prev] + s == [prev, first] + s[1..];
      assert Alike(([prev] + s)[0], ([prev] + s)[1]);
      Tails(s, prev);
      if first != prev {
        if Lori(first) == Lori(prev) {
          SameFieldsSameSpot(first, prev);
        }
        DistinctAfter(s[1..], first);
        OneMore(prev, first, Distinct(s[1..], first));
        forall x | x in s
          ensures x != prev
        {
          var i :| 0 <= i < |s| && s[i] == x;
          assert i > 0 ==> !LessLori(s[i], s[0]);
        }
      } else {
        DistinctAfter(s[1..], prev);
      }
    }
  }

  lemma Tails(s: seq<SpotInfo>, prev: SpotInfo)
    requires s != [] && Sorted(s, LessLori) && AllAlike([prev] + s)
    ensures Sorted(s[1..], LessLori) && AllAlike([s[0]] + s[1..])
    ensures AllAlike([prev] + s[1..])
    ensures forall i :: 0 <= i < |s[1..]| ==> Lori(s[0]) <= Lori(s[1..][i])
  {
    forall i | 0 <= i < |s[1..]|
      ensures Lori(s[0]) <= Lori(s[1..][i])
    {
      assert !LessLori(s[i + 1], s[0]);
    }
    assert [s[0]] + s[1..] == s;
    var t := [prev] + s;
    forall i, j | 0 <= i < |s| && 0 <= j < |s|
      ensures Alike(s[i], s[j])
    {
      assert Alike(t[i + 1], t[j + 1]);
    }
    var u := [prev] + s[1..];
    forall i, j | 0 <= i < |u| && 0 <= j < |u|
      ensures Alike(u[i], u[j])
    {
      assert Alike(t[if i == 0 then 0 else i + 1], t[if j == 0 then 0 else j + 1]);
    }
  }

  lemma OneMore(prev: SpotInfo, first: SpotInfo, rest: seq<SpotInfo>)
    requires KindRunOk([first] + rest) && Alike(prev, first) && Lori(prev) < Lori(first)
    ensures KindRunOk([prev] + ([first] + rest))
  {
    var t := [first] + rest;
    assert forall i :: 0 <= i < |t| ==> Alike(t[i], t[0]) && Lori(first) <= Lori(t[i]);
  }

  /** newKindRun: exactly the distinct entries of h. Only a list of nothing but the marker word
      comes out wrong: it is lost. */
  method NewKindRun(h: seq<SpotInfo>) returns (run: seq<SpotInfo>)
    requires h != [] && AllAlike(h)
    ensures KindRunOk(run)
    ensures (forall x :: x in run <==> x in h) <==> exists x :: x in h && x != SENTINEL
  {
    hide AllAlike, KindRunOk, Sorted, Distinct;
    var a := new SpotInfo[|h|](i requires 0 <= i < |h| => h[i]);
    assert a[..] == h;
    SortByLori(a);
    ghost var sorted := a[..];
    SameMembers(sorted, h);
    var k := Compact(a);
    run := a[..k];
    KindRunExact(sorted);
  }

  lemma SameMembers(s: seq<SpotInfo>, h: seq<SpotInfo>)
    requires multiset(s) == multiset(h)
    ensures forall x :: x in s <==> x in h
    ensures AllAlike(h) ==> AllAlike(s)
    ensures |s| == |h|
  {
    forall x
      ensures x in s <==> x in h
    {
      assert x in s <==> x in multiset(s);
      assert x in h <==> x in multiset(h);
    }
    if AllAlike(h) {
      forall i, j | 0 <= i < |s| && 0 <= j < |s|
        ensures Alike(s[i], s[j])
      {
        var x, y := s[i], s[j];
        assert x in h && y in h;
      }
    }
    assert |multiset(s)| == |s| && |multiset(h)| == |h|;
  }

  lemma KindRunExact(s: seq<SpotInfo>)
    requires s != [] && AllAlike(s) && Sorted(s, LessLori)
    ensures KindRunOk(Distinct(s, SENTINEL))
    ensures (forall x :: x in Distinct(s, SENTINEL) <==> x in s) <==> exists x :: x in s && x != SENTINEL
  {
    var first := s[0];
    assert [first] + s[1..] == s;
    forall i | 0 <= i < |s|
      ensures Lori(first) <= Lori(s[i])
    {
      assert i > 0 ==> !LessLori(s[i], s[0]);
    }
    Tails(s, first);
    if first != SENTINEL {
      assert first in s && Distinct(s, SENTINEL) == [first] + Distinct(s[1..], first);
      DistinctAfter(s[1..], first);
    } else {
      forall i | 0 <= i < |s|
        ensures s[i] == SENTINEL
      {
        assert Alike(s[0], s[i]);
        SameFieldsSameSpot(s[i], SENTINEL);
      }
      AllDropped(s, SENTINEL);
      assert s[0] in s;
    }
  }

  lemma {:induction false} AllDropped(s: seq<SpotInfo>, prev: SpotInfo)
    requires forall i :: 0 <= i < |s| ==> s[i] == prev
    ensures Distinct(s, prev) == []
  {
    if s != [] {
      AllDropped(s[1..], prev);
    }
  }

  // ---------- one file ----------

  function Infos(h: seq<Spot>): seq<SpotInfo> {
    seq(|h|, i requires 0 <= i < |h| => h[i].info)
  }

  /** What visitIdent keeps true of each list it fills: the isIndex bit is the same throughout,
      and the marker word is not among them. */
  ghost predicate ListOk(infos: seq<SpotInfo>) {
    && (forall i, j :: 0 <= i < |infos| && 0 <= j < |infos| ==> IsIndex(infos[i]) == IsIndex(infos[j]))
    && forall i :: 0 <= i < |infos| ==> infos[i] != SENTINEL
  }

  ghost predicate GroupsOk(groups: seq<seq<SpotInfo>>) {
    && (forall k :: 0 <= k < |groups| ==> groups[k] != [] && KindRunOk(groups[k]))
    && forall j, k :: 0 <= j < k < |groups| ==> Before(groups[j], groups[k], LessKind)
  }

  /** The file run made of the spots h. */
  ghost predicate FileRunFrom(fr: FileRun, h: seq<Spot>)
    requires h != []
  {
    fr.file == h[0].file && GroupsOk(fr.groups) && forall x :: InRuns(fr.groups, x) <==> x in Infos(h)
  }

  ghost predicate SameSet(a: seq<SpotInfo>, b: seq<SpotInfo>) {
    forall x :: x in a <==> x in b
  }

  method NewFileRun(h: seq<Spot>) returns (fr: FileRun)
    requires h != [] && ListOk(Infos(h))
    ensures FileRunFrom(fr, h)
  {
    hide StrictWeak, Grouped, ListOk, KindRunOk, GroupsOk, AllAlike, SameRun;
    NumberOrders();
    var infos := Infos(h);
    var runs := Reduce(infos, LessKind);
    var groups: seq<seq<SpotInfo>> := [];
    for k := 0 to |runs|
      invariant |groups| == k
      invariant forall m :: 0 <= m < k ==> KindRunOk(groups[m]) && SameSet(groups[m], runs[m])
    {
      KindReady(infos, runs, k);
      var g := NewKindRun(runs[k]);
      assert SameSet(g, runs[k]) by {
        assert runs[k][0] in runs[k];
      }
      groups := groups + [g];
    }
    fr := FileRun(h[0].file, groups);
    GroupsMade(infos, runs, groups);
  }

  /** A run by kind is ready for newKindRun: the entries are alike and none is the marker. */
  lemma KindReady(infos: seq<SpotInfo>, runs: seq<seq<SpotInfo>>, k: nat)
    requires ListOk(infos) && Grouped(runs, LessKind) && multiset(Joined(runs)) == multiset(infos) && k < |runs|
    ensures runs[k] != [] && AllAlike(runs[k]) && forall i :: 0 <= i < |runs[k]| ==> runs[k][i] != SENTINEL
  {
    var run := runs[k];
    assert SameRun(run, LessKind);
    RunWithin(runs, k);
    forall i, j | 0 <= i < |run| && 0 <= j < |run|
      ensures Alike(run[i], run[j]) && run[i] != SENTINEL
    {
      var x, y := run[i], run[j];
      assert x in multiset(run) && y in multiset(run);
      assert x in multiset(infos) && y in multiset(infos);
      assert !LessKind(x, y) && !LessKind(y, x);
    }
  }

  lemma GroupsMade(infos: seq<SpotInfo>, runs: seq<seq<SpotInfo>>, groups: seq<seq<SpotInfo>>)
    requires Grouped(runs, LessKind) && multiset(Joined(runs)) == multiset(infos) && |groups| == |runs|
    requires forall m :: 0 <= m < |runs| ==> KindRunOk(groups[m]) && SameSet(groups[m], runs[m])
    ensures GroupsOk(groups) && forall x :: InRuns(groups, x) <==> x in infos
  {
    hide KindRunOk;
    forall k | 0 <= k < |groups|
      ensures groups[k] != []
    {
      assert SameRun(runs[k], LessKind);
      assert runs[k][0] in runs[k];
      assert runs[k][0] in groups[k];
    }
    forall j, k | 0 <= j < k < |groups|
      ensures Before(groups[j], groups[k], LessKind)
    {
      assert Before(runs[j], runs[k], LessKind);
      forall a, b | 0 <= a < |groups[j]| && 0 <= b < |groups[k]|
        ensures LessKind(groups[j][a], groups[k][b])
      {
        assert groups[j][a] in runs[j] && groups[k][b] in runs[k];
      }
    }
    forall x
      ensures InRuns(groups, x) <==> x in infos
    {
      JoinedMembers(runs, x);
      assert x in infos <==> x in multiset(infos);
      assert x in Joined(runs) <==> x in multiset(Joined(runs));
      if InRuns(groups, x) {
        var k :| 0 <= k < |groups| && x in groups[k];
        assert x in runs[k];
      }
      if InRuns(runs, x) {
        var k :| 0 <= k < |runs| && x in runs[k];
        assert x in groups[k];
      }
    }
  }

  // ---------- one package ----------

  /** The file runs of one package, in the order of their names, none twice. */
  ghost predicate PakRunOk(pr: PakRun) {
    && pr.files != []
    && (forall f :: 0 <= f < |pr.files| ==> pr.files[f].file.pak == pr.pak)
    && forall f, g :: 0 <= f < g < |pr.files| ==> LessFileName(pr.files[f], pr.files[g])
  }

  method NewPakRun(h: seq<FileRun>) returns (pr: PakRun)
    requires h != [] && forall i :: 0 <= i < |h| ==> h[i].file.pak == h[0].file.pak
    requires forall i, j :: 0 <= i < j < |h| ==> h[i].file.name != h[j].file.name
    ensures PakRunOk(pr) && multiset(pr.files) == multiset(h)
  {
    hide LessFileName, StrictWeak, PakRunOk;
    FileNameOrder();
    var files := Sort(h, LessFileName);
    pr := PakRun(h[0].file.pak, files);
    PakSorted(h, pr);
  }

  lemma PakSorted(h: seq<FileRun>, pr: PakRun)
    requires h != [] && forall i :: 0 <= i < |h| ==> h[i].file.pak == pr.pak
    requires forall i, j :: 0 <= i < j < |h| ==> h[i].file.name != h[j].file.name
    requires Sorted(pr.files, LessFileName) && multiset(pr.files) == multiset(h)
    ensures PakRunOk(pr)
  {
    hide LessFileName, StrictWeak;
    FileNameOrder();
    var files := pr.files;
    assert |multiset(files)| == |files| && |multiset(h)| == |h|;
    forall f | 0 <= f < |files|
      ensures files[f].file.pak == pr.pak
    {
      var fr := files[f];
      assert fr in multiset(files) && fr in multiset(h);
    }
    forall f, g | 0 <= f < g < |files|
      ensures LessFileName(files[f], files[g])
    {
      var x, y := files[f], files[g];
      assert x in multiset(h) && y in multiset(h);
      var i :| 0 <= i < |h| && h[i] == x;
      var j :| 0 <= j < |h| && h[j] == y;
      if i == j {
        TwiceIn(files, f, g);
        OnceIn(h, i);
      }
    }
  }

  lemma TwiceIn<T(!new)>(s: seq<T>, i: nat, j: nat)
    requires i < j < |s| && s[i] == s[j]
    ensures multiset(s)[s[i]] >= 2
  {
    assert s == s[..i] + [s[i]] + s[i + 1..j] + [s[j]] + s[j + 1..];
  }

  lemma OnceIn<T(!new)>(s: seq<T>, i: nat)
    requires i < |s| && forall j :: 0 <= j < |s| && j != i ==> s[j] != s[i]
    ensures multiset(s)[s[i]] == 1
  {
    assert s == s[..i] + [s[i]] + s[i + 1..];
    assert s[i] !in multiset(s[..i]) && s[i] !in multiset(s[i + 1..]);
  }

  // ---------- the hit list ----------

  /** Packages, files, kinds and lines in order, none twice. */
  ghost predicate HitsOk(hits: seq<PakRun>) {
    && (forall p :: 0 <= p < |hits| ==> PakRunOk(hits[p]))
    && (forall p, f :: 0 <= p < |hits| && 0 <= f < |hits[p].files| ==> GroupsOk(hits[p].files[f].groups))
    && forall p, q :: 0 <= p < q < |hits| ==> LessPakRun(hits[p], hits[q])
  }

  ghost predicate InHits(hits: seq<PakRun>, fr: FileRun) {
    exists p :: 0 <= p < |hits| && fr in hits[p].files
  }

  /** The hit list says that file has the spot info. */
  ghost predicate Occurs(hits: seq<PakRun>, file: File, info: SpotInfo) {
    exists fr :: InHits(hits, fr) && fr.file == file && InRuns(fr.groups, info)
  }

  /** The hit list holds exactly the spots of h0. */
  ghost predicate Faithful(hits: seq<PakRun>, h0: seq<Spot>) {
    forall file, info :: Occurs(hits, file, info) <==> Spot(file, info) in h0
  }

  /** One package per directory and file name. */
  ghost predicate Consistent(h0: seq<Spot>) {
    forall i, j :: 0 <= i < |h0| && 0 <= j < |h0| && SamePath(h0[i].file, h0[j].file) ==> h0[i].file == h0[j].file
  }

  ghost predicate FilesMade(h1: seq<FileRun>, runs: seq<seq<Spot>>) {
    |h1| == |runs| && forall k :: 0 <= k < |runs| ==> runs[k] != [] && FileRunFrom(h1[k], runs[k])
  }

  ghost predicate PaksMade(h2: seq<PakRun>, runs: seq<seq<FileRun>>) {
    && |h2| == |runs|
    && forall k :: 0 <= k < |runs| ==> PakRunOk(h2[k]) && multiset(h2[k].files) == multiset(runs[k])
  }

  /** reduce: everything in order and once; and exactly the spots that went in, provided that a
      file path belongs to one package. Otherwise spots are credited to the wrong package. */
  method ReduceSpots(h0: seq<Spot>) returns (hits: seq<PakRun>)
    requires ListOk(Infos(h0))
    ensures HitsOk(hits) && (Faithful(hits, h0) <==> Consistent(h0))
  {
    hide StrictWeak, Grouped, ListOk, FileRunFrom, PakRunOk, HitsOk, Faithful, Consistent, Sorted;
    SpotOrder();
    FileRunOrder();
    var runs1 := Reduce(h0, LessSpot);
    var h1: seq<FileRun> := [];
    for k := 0 to |runs1|
      invariant FilesMade(h1, runs1[..k])
    {
      SpotsReady(h0, runs1, k);
      var fr := NewFileRun(runs1[k]);
      h1 := h1 + [fr];
    }
    assert runs1[..|runs1|] == runs1;
    var runs2 := Reduce(h1, LessFileRun);
    var h2: seq<PakRun> := [];
    for k := 0 to |runs2|
      invariant PaksMade(h2, runs2[..k])
    {
      FilesReady(runs1, h1, runs2, k);
      var pr := NewPakRun(runs2[k]);
      h2 := h2 + [pr];
    }
    assert runs2[..|runs2|] == runs2;
    hits := Sort(h2, LessPakRun);
    HitsMade(runs1, h1, runs2, h2, hits);
    HitsHold(h1, runs2, h2, hits);
    HitsFaithful(h0, runs1, h1, hits);
  }

  lemma SpotsReady(h0: seq<Spot>, runs: seq<seq<Spot>>, k: nat)
    requires ListOk(Infos(h0)) && Grouped(runs, LessSpot) && multiset(Joined(runs)) == multiset(h0) && k < |runs|
    ensures runs[k] != [] && ListOk(Infos(runs[k]))
  {
    var run := runs[k];
    assert SameRun(run, LessSpot);
    RunWithin(runs, k);
    forall i, j | 0 <= i < |run| && 0 <= j < |run|
      ensures IsIndex(Infos(run)[i]) == IsIndex(Infos(run)[j]) && Infos(run)[i] != SENTINEL
    {
      var x, y := run[i], run[j];
      assert x in multiset(run) && y in multiset(run);
      assert x in multiset(h0) && y in multiset(h0);
      var a :| 0 <= a < |h0| && h0[a] == x;
      var b :| 0 <= b < |h0| && h0[b] == y;
      assert Infos(h0)[a] == x.info && Infos(h0)[b] == y.info;
    }
  }

  /** Different file runs are about different paths. */
  lemma PathsDiffer(runs1: seq<seq<Spot>>, h1: seq<FileRun>, a: nat, b: nat)
    requires Grouped(runs1, LessSpot) && FilesMade(h1, runs1) && a < |h1| && b < |h1|
    requires SamePath(h1[a].file, h1[b].file)
    ensures a == b
  {
    PairLessIrreflexive(h1[a].file.pak.path, h1[a].file.name);
    if a < b {
      PathsInOrder(runs1, h1, a, b);
    } else if b < a {
      PathsInOrder(runs1, h1, b, a);
    }
  }

  lemma PathsInOrder(runs1: seq<seq<Spot>>, h1: seq<FileRun>, a: nat, b: nat)
    requires Grouped(runs1, LessSpot) && FilesMade(h1, runs1) && a < b < |h1|
    ensures PairLess(h1[a].file.pak.path, h1[a].file.name, h1[b].file.pak.path, h1[b].file.name)
  {
    assert Before(runs1[a], runs1[b], LessSpot);
    assert LessSpot(runs1[a][0], runs1[b][0]);
  }

  lemma FilesReady(runs1: seq<seq<Spot>>, h1: seq<FileRun>, runs2: seq<seq<FileRun>>, k: nat)
    requires Grouped(runs1, LessSpot) && FilesMade(h1, runs1)
    requires Grouped(runs2, LessFileRun) && multiset(Joined(runs2)) == multiset(h1) && k < |runs2|
    ensures runs2[k] != [] && forall i :: 0 <= i < |runs2[k]| ==> runs2[k][i].file.pak == runs2[k][0].file.pak
    ensures forall i, j :: 0 <= i < j < |runs2[k]| ==> runs2[k][i].file.name != runs2[k][j].file.name
  {
    hide LessPak, PairLess, StrictWeak, FileRunFrom;
    var run := runs2[k];
    assert SameRun(run, LessFileRun);
    RunWithin(runs2, k);
    PakOrder();
    forall i | 0 <= i < |run|
      ensures run[i].file.pak == run[0].file.pak
    {
      assert !LessFileRun(run[i], run[0]) && !LessFileRun(run[0], run[i]);
    }
    forall i, j | 0 <= i < j < |run|
      ensures run[i].file.name != run[j].file.name
    {
      if run[i].file.name == run[j].file.name {
        var x, y := run[i], run[j];
        assert x in multiset(run) && y in multiset(run);
        assert x in multiset(h1) && y in multiset(h1);
        var a :| 0 <= a < |h1| && h1[a] == x;
        var b :| 0 <= b < |h1| && h1[b] == y;
        PathsDiffer(runs1, h1, a, b);
        TwiceIn(run, i, j);
        forall c | 0 <= c < |h1| && c != a
          ensures h1[c] != h1[a]
        {
          if h1[c] == h1[a] {
            PathsDiffer(runs1, h1, a, c);
          }
        }
        OnceIn(h1, a);
      }
    }
  }

  /** The file runs of the hit list are those of h1. */
  lemma HitsHold(h1: seq<FileRun>, runs2: seq<seq<FileRun>>, h2: seq<PakRun>, hits: seq<PakRun>)
    requires multiset(Joined(runs2)) == multiset(h1) && PaksMade(h2, runs2) && multiset(hits) == multiset(h2)
    ensures forall fr :: InHits(hits, fr) <==> fr in h1
  {
    hide PakRunOk;
    forall fr
      ensures InHits(hits, fr) <==> fr in h1
    {
      assert fr in h1 <==> fr in multiset(h1);
      assert fr in Joined(runs2) <==> fr in multiset(Joined(runs2));
      JoinedMembers(runs2, fr);
      if InHits(hits, fr) {
        var p :| 0 <= p < |hits| && fr in hits[p].files;
        var pr := hits[p];
        assert pr in multiset(hits) && pr in multiset(h2);
        var k :| 0 <= k < |h2| && h2[k] == pr;
        assert fr in multiset(pr.files) && fr in multiset(runs2[k]);
      }
      if InRuns(runs2, fr) {
        var k :| 0 <= k < |runs2| && fr in runs2[k];
        assert fr in multiset(runs2[k]) && fr in multiset(h2[k].files);
        var pr := h2[k];
        assert pr in multiset(h2) && pr in multiset(hits);
        var p :| 0 <= p < |hits| && hits[p] == pr;
      }
    }
  }

  lemma HitsMade(runs1: seq<seq<Spot>>, h1: seq<FileRun>, runs2: seq<seq<FileRun>>, h2: seq<PakRun>, hits: seq<PakRun>)
    requires FilesMade(h1, runs1) && Grouped(runs2, LessFileRun) && multiset(Joined(runs2)) == multiset(h1)
    requires PaksMade(h2, runs2) && Sorted(hits, LessPakRun) && multiset(hits) == multiset(h2)
    ensures HitsOk(hits)
  {
    hide GroupsOk, LessPak;
    HitsHold(h1, runs2, h2, hits);
    forall p | 0 <= p < |hits|
      ensures PakRunOk(hits[p])
    {
      var pr := hits[p];
      assert pr in multiset(hits) && pr in multiset(h2);
    }
    forall p, f | 0 <= p < |hits| && 0 <= f < |hits[p].files|
      ensures GroupsOk(hits[p].files[f].groups)
    {
      assert InHits(hits, hits[p].files[f]);
    }
    forall p, q | 0 <= p < q < |hits|
      ensures LessPakRun(hits[p], hits[q])
    {
      PaksDiffer(runs2, h2, hits, p, q);
      PakOrder();
    }
  }

  lemma PaksDiffer(runs2: seq<seq<FileRun>>, h2: seq<PakRun>, hits: seq<PakRun>, p: nat, q: nat)
    requires Grouped(runs2, LessFileRun) && PaksMade(h2, runs2) && multiset(hits) == multiset(h2) && p < q < |hits|
    ensures hits[p].pak != hits[q].pak
  {
    hide LessPak, StrictWeak;
    var x, y := hits[p], hits[q];
    assert x in multiset(h2) && y in multiset(h2) by {
      assert x in multiset(hits) && y in multiset(hits);
    }
    var a :| 0 <= a < |h2| && h2[a] == x;
    var b :| 0 <= b < |h2| && h2[b] == y;
    if x.pak == y.pak {
      SamePakSameRun(runs2, h2, a, b);
      TwiceIn(hits, p, q);
      forall c | 0 <= c < |h2| && c != a
        ensures h2[c] != h2[a]
      {
        if h2[c] == h2[a] {
          SamePakSameRun(runs2, h2, a, c);
        }
      }
      OnceIn(h2, a);
    }
  }

  lemma SamePakSameRun(runs2: seq<seq<FileRun>>, h2: seq<PakRun>, a: nat, b: nat)
    requires Grouped(runs2, LessFileRun) && PaksMade(h2, runs2) && a < |h2| && b < |h2| && h2[a].pak == h2[b].pak
    ensures a == b
  {
    hide LessPak, StrictWeak;
    NotLessItself(h2[a].pak);
    if a < b {
      PaksInOrder(runs2, h2, a, b);
    } else if b < a {
      PaksInOrder(runs2, h2, b, a);
    }
  }

  lemma PaksInOrder(runs2: seq<seq<FileRun>>, h2: seq<PakRun>, i: nat, j: nat)
    requires Grouped(runs2, LessFileRun) && PaksMade(h2, runs2) && i < j < |h2|
    ensures LessPak(h2[i].pak, h2[j].pak)
  {
    hide LessPak, StrictWeak;
    assert SameRun(runs2[i], LessFileRun) && SameRun(runs2[j], LessFileRun);
    var x, y := runs2[i][0], runs2[j][0];
    assert Before(runs2[i], runs2[j], LessFileRun) && LessFileRun(x, y);
    assert x in multiset(runs2[i]) && y in multiset(runs2[j]);
    assert x in multiset(h2[i].files) && y in multiset(h2[j].files);
  }

  lemma NotLessItself(p: Pak)
    ensures !LessPak(p, p)
  {
    PairLessIrreflexive(p.name, p.path);
  }

  /** Run k of the spots was made into a file run that says file has the spot info. */
  ghost predicate MadeFrom(runs1: seq<seq<Spot>>, k: nat, file: File, info: SpotInfo) {
    k < |runs1| && runs1[k] != [] && runs1[k][0].file == file && info in Infos(runs1[k])
  }

  lemma OccursFrom(runs1: seq<seq<Spot>>, h1: seq<FileRun>, hits: seq<PakRun>, file: File, info: SpotInfo)
    requires FilesMade(h1, runs1) && forall fr :: InHits(hits, fr) <==> fr in h1
    ensures Occurs(hits, file, info) <==> exists k: nat :: MadeFrom(runs1, k, file, info)
  {
    hide GroupsOk, InRuns, InHits;
    if Occurs(hits, file, info) {
      var fr :| InHits(hits, fr) && fr.file == file && InRuns(fr.groups, info);
      var k :| 0 <= k < |h1| && h1[k] == fr;
      assert FileRunFrom(h1[k], runs1[k]);
      assert MadeFrom(runs1, k, file, info);
    }
    if k: nat :| MadeFrom(runs1, k, file, info) {
      assert FileRunFrom(h1[k], runs1[k]);
      assert InHits(hits, h1[k]);
    }
  }

  /** Where a spot of h0 is among the runs. */
  lemma SpotInRun(h0: seq<Spot>, runs1: seq<seq<Spot>>, s: Spot) returns (k: nat)
    requires multiset(Joined(runs1)) == multiset(h0) && s in h0
    ensures k < |runs1| && s in runs1[k] && s.info in Infos(runs1[k])
  {
    assert s in multiset(h0) && s in multiset(Joined(runs1));
    JoinedMembers(runs1, s);
    k :| 0 <= k < |runs1| && s in runs1[k];
    var i :| 0 <= i < |runs1[k]| && runs1[k][i] == s;
    assert Infos(runs1[k])[i] == s.info;
  }

  /** The entries of one run have one path. */
  lemma RunSamePath(runs1: seq<seq<Spot>>, k: nat, s: Spot, t: Spot)
    requires Grouped(runs1, LessSpot) && k < |runs1| && s in runs1[k] && t in runs1[k]
    ensures SamePath(s.file, t.file)
  {
    SpotOrder();
    assert SameRun(runs1[k], LessSpot);
    assert !LessSpot(s, t) && !LessSpot(t, s);
  }

  lemma HitsFaithful(h0: seq<Spot>, runs1: seq<seq<Spot>>, h1: seq<FileRun>, hits: seq<PakRun>)
    requires Grouped(runs1, LessSpot) && multiset(Joined(runs1)) == multiset(h0) && FilesMade(h1, runs1)
    requires forall fr :: InHits(hits, fr) <==> fr in h1
    ensures Faithful(hits, h0) <==> Consistent(h0)
  {
    hide Occurs, InHits, FileRunFrom, Grouped, LessSpot;
    if Consistent(h0) {
      forall file, info
        ensures Occurs(hits, file, info) <==> Spot(file, info) in h0
      {
        OccursFrom(runs1, h1, hits, file, info);
        MadeFromSpots(h0, runs1, file, info);
      }
    }
    if Faithful(hits, h0) {
      forall i, j | 0 <= i < |h0| && 0 <= j < |h0| && SamePath(h0[i].file, h0[j].file)
        ensures h0[i].file == h0[j].file
      {
        var k := RunOfOccurring(h0, runs1, h1, hits, h0[i]);
        var m := RunOfOccurring(h0, runs1, h1, hits, h0[j]);
        PathsDiffer(runs1, h1, k, m);
      }
    }
  }

  lemma MadeFromSpots(h0: seq<Spot>, runs1: seq<seq<Spot>>, file: File, info: SpotInfo)
    requires Grouped(runs1, LessSpot) && multiset(Joined(runs1)) == multiset(h0) && Consistent(h0)
    ensures (exists k: nat :: MadeFrom(runs1, k, file, info)) <==> Spot(file, info) in h0
  {
    hide Grouped, LessSpot;
    if k: nat :| MadeFrom(runs1, k, file, info) {
      var i :| 0 <= i < |runs1[k]| && runs1[k][i].info == info;
      var s, t := runs1[k][i], runs1[k][0];
      RunSamePath(runs1, k, s, t);
      InputOf(h0, runs1, k, s);
      InputOf(h0, runs1, k, t);
    }
    if Spot(file, info) in h0 {
      var s := Spot(file, info);
      var k := SpotInRun(h0, runs1, s);
      RunSamePath(runs1, k, s, runs1[k][0]);
      InputOf(h0, runs1, k, runs1[k][0]);
      assert MadeFrom(runs1, k, file, info);
    }
  }

  lemma InputOf(h0: seq<Spot>, runs1: seq<seq<Spot>>, k: nat, s: Spot)
    requires multiset(Joined(runs1)) == multiset(h0) && k < |runs1| && s in runs1[k]
    ensures s in h0
  {
    RunWithin(runs1, k);
    assert s in multiset(runs1[k]) && s in multiset(Joined(runs1)) && s in multiset(h0);
  }

  /** If the hits are faithful, the run of a spot carries the file of that spot. */
  lemma RunOfOccurring(h0: seq<Spot>, runs1: seq<seq<Spot>>, h1: seq<FileRun>, hits: seq<PakRun>, s: Spot)
    returns (k: nat)
    requires FilesMade(h1, runs1) && Faithful(hits, h0) && s in h0
    requires forall fr :: InHits(hits, fr) <==> fr in h1
    ensures k < |h1| && h1[k].file == s.file
  {
    hide InHits, Occurs, Faithful;
    assert Occurs(hits, s.file, s.info) by {
      assert Spot(s.file, s.info) == s;
      FaithfulAt(hits, h0, s);
    }
    OccursFrom(runs1, h1, hits, s.file, s.info);
    k :| MadeFrom(runs1, k, s.file, s.info);
    assert FileRunFrom(h1[k], runs1[k]);
  }

  lemma FaithfulAt(hits: seq<PakRun>, h0: seq<Spot>, s: Spot)
    requires Faithful(hits, h0) && s in h0
    ensures Occurs(hits, s.file, s.info)
  {
    assert Spot(s.file, s.info) in h0;
  }

  /** No occurrence is listed at two places of a hit list. */
  lemma ListedOnce(hits: seq<PakRun>, p: nat, f: nat, g: nat, i: nat, q: nat, e: nat, m: nat, j: nat)
    requires HitsOk(hits) && Listed(hits, p, f, g, i) && Listed(hits, q, e, m, j)
    requires hits[p].files[f].file == hits[q].files[e].file
    requires hits[p].files[f].groups[g][i] == hits[q].files[e].groups[m][j]
    ensures p == q && f == e && g == m && i == j
  {
    hide LessPak, StringLess;
    assert hits[p].pak == hits[p].files[f].file.pak && hits[q].pak == hits[q].files[e].file.pak;
    NotLessItself(hits[p].pak);
    assert p < q ==> LessPakRun(hits[p], hits[q]);
    assert q < p ==> LessPakRun(hits[q], hits[p]);
    StringLessIrreflexive(hits[p].files[f].file.name);
    assert f < e ==> LessFileName(hits[p].files[f], hits[p].files[e]);
    assert e < f ==> LessFileName(hits[p].files[e], hits[p].files[f]);
    var groups := hits[p].files[f].groups;
    assert g < m ==> Before(groups[g], groups[m], LessKind) && LessKind(groups[g][i], groups[m][j]);
    assert m < g ==> Before(groups[m], groups[g], LessKind) && LessKind(groups[m][j], groups[g][i]);
  }

  ghost predicate Listed(hits: seq<PakRun>, p: nat, f: nat, g: nat, i: nat) {
    p < |hits| && f < |hits[p].files| && g < |hits[p].files[f].groups| && i < |hits[p].files[f].groups[g]|
  }

  // ---------- filling the lists ----------

  /** The two lists of one word. */
  datatype IndexResult = IndexResult(decls: seq<Spot>, others: seq<Spot>)

  datatype LookupResult = LookupResult(decls: seq<PakRun>, others: seq<PakRun>)

  /** The spots found so far: those in decls are indexed and no uses, those in others go by line, and
      every spot's file is the one that its path stands for. */
  ghost predicate Found(r: IndexResult, clause: (string, string) -> string) {
    && (forall i :: 0 <= i < |r.decls| ==> IsIndex(r.decls[i].info) && r.decls[i].info != SENTINEL)
    && (forall i :: 0 <= i < |r.others| ==> !IsIndex(r.others[i].info))
    && (forall i :: 0 <= i < |r.decls| ==> Visited(r.decls[i].file, clause))
    && forall i :: 0 <= i < |r.others| ==> Visited(r.others[i].file, clause)
  }

  /** The file was made from its own package clause. */
  predicate Visited(file: File, clause: (string, string) -> string) {
    file.pak.name == clause(file.pak.path, file.name)
  }

  /** A call of visitIdent: the file it came from, and what it was given. */
  datatype Visit = Visit(file: File, name: string, kind: SpotKind, hasDecl: bool, line: int, snippet: int)

  /** A number that does not fit is given up. */
  function Fitting(n: int): int {
    if 0 <= n < TWO_TO_THE_28 then n else 0
  }

  /** The visit was of a declaration of word w in the file, and the info tells its kind and snippet. */
  ghost predicate Declares(v: Visit, w: string, file: File, info: SpotInfo) {
    && v.name == w && v.kind != Use && v.hasDecl && v.file == file
    && KindOf(info) == v.kind && IsIndex(info) && Lori(info) == Fitting(v.snippet)
  }

  /** The visit was of a use of word w, or of a declaration without a snippet; the info tells its
      kind and line. */
  ghost predicate Mentions(v: Visit, w: string, file: File, info: SpotInfo) {
    && v.name == w && (v.kind == Use || !v.hasDecl) && v.file == file
    && KindOf(info) == v.kind && !IsIndex(info) && Lori(info) == Fitting(v.line)
  }

  ghost predicate Declared(visits: set<Visit>, w: string, file: File, info: SpotInfo) {
    exists v :: v in visits && Declares(v, w, file, info)
  }

  ghost predicate Mentioned(visits: set<Visit>, w: string, file: File, info: SpotInfo) {
    exists v :: v in visits && Mentions(v, w, file, info)
  }

  /** The lists of w hold what the visits found, other occurrences only when Go code is indexed. */
  ghost predicate Logged(r: IndexResult, visits: set<Visit>, goCode: bool, w: string) {
    && (forall file, info :: Spot(file, info) in r.decls <==> Declared(visits, w, file, info))
    && forall file, info :: Spot(file, info) in r.others <==> goCode && Mentioned(visits, w, file, info)
  }

  ghost predicate AllLogged(words: map<string, IndexResult>, visits: set<Visit>, goCode: bool) {
    && (forall v :: v in visits ==> v.name in words)
    && forall w :: w in words ==> Logged(words[w], visits, goCode, w)
  }

  /** Two infos that say the same of a visit are the same. */
  lemma OneSpot(v: Visit, w: string, file: File, info: SpotInfo)
    ensures Declares(v, w, file, info) <==>
      (v.name == w && v.kind != Use && v.hasDecl && file == v.file && info == MakeSpotInfo(v.kind, v.snippet, true))
    ensures Mentions(v, w, file, info) <==>
      (v.name == w && (v.kind == Use || !v.hasDecl) && file == v.file && info == MakeSpotInfo(v.kind, v.line, false))
  {
    hide MakeSpotInfo, KindOf;
    MadeSpot(v.kind, v.snippet, true);
    MadeSpot(v.kind, v.line, false);
    CodesInOrder(KindOf(info), Kind(info));
    KindInRange(info);
    forall isIndex, lori: int | KindOf(info) == v.kind && IsIndex(info) == isIndex && Lori(info) == Fitting(lori)
      ensures info == MakeSpotInfo(v.kind, lori, isIndex)
    {
      MadeSpot(v.kind, lori, isIndex);
      SameFieldsSameSpot(info, MakeSpotInfo(v.kind, lori, isIndex));
    }
  }

  lemma KindInRange(info: SpotInfo)
    ensures KindOf(info) == Kinds[Kind(info)]
  {
  }

  /** One more visit of the word w. */
  lemma VisitLogged(r: IndexResult, r': IndexResult, visits: set<Visit>, goCode: bool, v: Visit)
    requires Logged(r, visits, goCode, v.name)
    requires if v.kind == Use || !v.hasDecl then
        r' == if goCode then r.(others := r.others + [Spot(v.file, MakeSpotInfo(v.kind, v.line, false))]) else r
      else r' == r.(decls := r.decls + [Spot(v.file, MakeSpotInfo(v.kind, v.snippet, true))])
    ensures Logged(r', visits + {v}, goCode, v.name)
  {
    hide MakeSpotInfo, Declares, Mentions;
    forall file, info
      ensures Spot(file, info) in r'.decls <==> Declared(visits + {v}, v.name, file, info)
      ensures Spot(file, info) in r'.others <==> goCode && Mentioned(visits + {v}, v.name, file, info)
    {
      OneSpot(v, v.name, file, info);
      OneMoreVisit(visits, v, v.name, file, info);
    }
  }

  lemma OneMoreVisit(visits: set<Visit>, v: Visit, w: string, file: File, info: SpotInfo)
    ensures Declared(visits + {v}, w, file, info) <==> Declared(visits, w, file, info) || Declares(v, w, file, info)
    ensures Mentioned(visits + {v}, w, file, info) <==> Mentioned(visits, w, file, info) || Mentions(v, w, file, info)
  {
    hide Declares, Mentions;
    assert v in visits + {v};
    if Declared(visits, w, file, info) {
      var u :| u in visits && Declares(u, w, file, info);
      assert u in visits + {v};
    }
    if Mentioned(visits, w, file, info) {
      var u :| u in visits && Mentions(u, w, file, info);
      assert u in visits + {v};
    }
  }

  /** The lists of other words are as they were, and those of a new word began empty. */
  lemma OthersLogged(words: map<string, IndexResult>, visits: set<Visit>, goCode: bool, v: Visit)
    requires AllLogged(words, visits, goCode)
    ensures forall w :: w in words && w != v.name ==> Logged(words[w], visits + {v}, goCode, w)
    ensures v.name !in words ==> Logged(IndexResult([], []), visits, goCode, v.name)
  {
    forall w, file, info | w != v.name
      ensures Declared(visits + {v}, w, file, info) <==> Declared(visits, w, file, info)
      ensures Mentioned(visits + {v}, w, file, info) <==> Mentioned(visits, w, file, info)
    {
      OneMoreVisit(visits, v, w, file, info);
    }
  }

  /** What a lookup of w answers: exactly what was visited. */
  ghost predicate Answers(l: LookupResult, visits: set<Visit>, goCode: bool, w: string) {
    && (forall file, info :: Occurs(l.decls, file, info) <==> Declared(visits, w, file, info))
    && forall file, info :: Occurs(l.others, file, info) <==> goCode && Mentioned(visits, w, file, info)
  }

  lemma IndexAnswers(l: LookupResult, r: IndexResult, visits: set<Visit>, goCode: bool, w: string)
    requires Indexed(l, r) && Logged(r, visits, goCode, w)
    ensures Answers(l, visits, goCode, w)
  {
    hide HitsOk, Occurs, Declared, Mentioned;
    forall file, info
      ensures Occurs(l.decls, file, info) <==> Declared(visits, w, file, info)
      ensures Occurs(l.others, file, info) <==> goCode && Mentioned(visits, w, file, info)
    {
      assert Occurs(l.decls, file, info) <==> Spot(file, info) in r.decls;
      assert Occurs(l.others, file, info) <==> Spot(file, info) in r.others;
    }
  }

  /** The hit list has something of a kind in a file. */
  ghost predicate HasKind(hits: seq<PakRun>, file: File, kind: SpotKind) {
    exists info :: Occurs(hits, file, info) && KindOf(info) == kind
  }

  /** An identifier w of the kind was visited in the file; with a snippet or without. */
  ghost predicate KindVisited(visits: set<Visit>, w: string, file: File, kind: SpotKind, snippet: bool) {
    exists v ::
      v in visits && v.name == w && v.file == file && v.kind == kind && (v.kind != Use && v.hasDecl) == snippet
  }

  /** A word is listed under a kind in a file exactly when such an identifier was visited there. */
  lemma KindsListed(l: LookupResult, visits: set<Visit>, goCode: bool, w: string, file: File, kind: SpotKind)
    requires Answers(l, visits, goCode, w)
    ensures HasKind(l.decls, file, kind) <==> KindVisited(visits, w, file, kind, true)
    ensures HasKind(l.others, file, kind) <==> goCode && KindVisited(visits, w, file, kind, false)
  {
    hide MakeSpotInfo, KindOf, Occurs;
    if HasKind(l.decls, file, kind) {
      var info :| Occurs(l.decls, file, info) && KindOf(info) == kind;
      assert Declared(visits, w, file, info);
    }
    if HasKind(l.others, file, kind) {
      var info :| Occurs(l.others, file, info) && KindOf(info) == kind;
      assert Mentioned(visits, w, file, info);
    }
    forall v | v in visits && v.name == w && v.file == file && v.kind == kind
      ensures v.kind != Use && v.hasDecl ==> HasKind(l.decls, file, kind)
      ensures !(v.kind != Use && v.hasDecl) && goCode ==> HasKind(l.others, file, kind)
    {
      var d, o := MakeSpotInfo(v.kind, v.snippet, true), MakeSpotInfo(v.kind, v.line, false);
      OneSpot(v, w, file, d);
      OneSpot(v, w, file, o);
      MadeSpot(v.kind, v.snippet, true);
      MadeSpot(v.kind, v.line, false);
      assert v.kind != Use && v.hasDecl ==> Declared(visits, w, file, d);
      assert !(v.kind != Use && v.hasDecl) ==> Mentioned(visits, w, file, o);
    }
  }

  /** Lists stay as the reduction needs them when a spot of the file at hand is added. */
  lemma FoundNext(r: IndexResult, clause: (string, string) -> string, file: File, kind: SpotKind, line: int,
                  snippet: int)
    requires (Found(r, clause) || r == IndexResult([], [])) && Visited(file, clause)
    ensures Found(r, clause) && Found(r.(others := r.others + [Spot(file, MakeSpotInfo(kind, line, false))]), clause)
    ensures kind != Use ==>
      Found(r.(decls := r.decls + [Spot(file, MakeSpotInfo(kind, snippet, true))]), clause)
  {
    hide MakeSpotInfo, KindOf;
    MadeSpot(kind, line, false);
    MadeSpot(kind, snippet, true);
    SentinelIsIndexedUse(kind, snippet, true);
  }

  lemma FoundReady(r: IndexResult, clause: (string, string) -> string)
    requires Found(r, clause)
    ensures ListOk(Infos(r.decls)) && ListOk(Infos(r.others)) && Consistent(r.decls) && Consistent(r.others)
  {
    forall i | 0 <= i < |r.others|
      ensures Infos(r.others)[i] != SENTINEL
    {
      assert IsIndex(SENTINEL) && !IsIndex(r.others[i].info);
    }
  }

  /** What the finished index holds of one word: each of its spots once, everything in order. */
  ghost predicate Indexed(l: LookupResult, r: IndexResult) {
    HitsOk(l.decls) && Faithful(l.decls, r.decls) && HitsOk(l.others) && Faithful(l.others, r.others)
  }

  /** The indexer. clause gives the package name in the file at a path; files do not change while
      they are indexed. */
  class Indexer {
    const clause: (string, string) -> string
    const indexGoCode: bool
    var words: map<string, IndexResult>
    var file: File
    ghost var visits: set<Visit>

    ghost predicate Valid()
      reads this
    {
      && Visited(file, clause) && (forall w :: w in words ==> Found(words[w], clause))
      && AllLogged(words, visits, indexGoCode)
    }

    /** The first file is begun; NewIndexer itself leaves it open. */
    constructor (clause: (string, string) -> string, indexGoCode: bool, dirname: string, filename: string)
      ensures Valid() && words == map[] && visits == {} && this.clause == clause && this.indexGoCode == indexGoCode
    {
      this.clause, this.indexGoCode := clause, indexGoCode;
      words, visits := map[], {};
      file := File(filename, Pak(dirname, clause(dirname, filename)));
    }

    /** The head of indexGoFile: the package is looked up by directory and clause. */
    method IndexGoFile(dirname: string, filename: string)
      requires Valid()
      modifies this`file
      ensures Valid() && file == File(filename, Pak(dirname, clause(dirname, filename)))
    {
      var pkgName := clause(dirname, filename);
      file := File(filename, Pak(dirname, pkgName));
    }

    /** visitIdent: a use, or a declaration without a snippet, goes by line number; other
        declarations go by snippet index. */
    method VisitIdent(name: string, kind: SpotKind, hasDecl: bool, line: int, snippet: int)
      requires Valid()
      modifies this`words, this`visits
      ensures Valid() && visits == old(visits) + {Visit(file, name, kind, hasDecl, line, snippet)}
      ensures words.Keys == old(words.Keys) + {name}
      ensures forall w :: w in old(words) && w != name ==> words[w] == old(words)[w]
      ensures var was := if name in old(words) then old(words)[name] else IndexResult([], []);
        words[name] ==
        if kind == Use || !hasDecl then
          if indexGoCode then was.(others := was.others + [Spot(file, MakeSpotInfo(kind, line, false))]) else was
        else was.(decls := was.decls + [Spot(file, MakeSpotInfo(kind, snippet, true))])
    {
      hide MakeSpotInfo, Found, Visited, Logged;
      ghost var v := Visit(file, name, kind, hasDecl, line, snippet);
      OthersLogged(words, visits, indexGoCode, v);
      ghost var was := if name in words then words[name] else IndexResult([], []);
      FoundNext(was, clause, file, kind, line, snippet);
      var lists := if name in words then words[name] else IndexResult([], []);
      if kind == Use || !hasDecl {
        if indexGoCode {
          var info := MakeSpotInfo(kind, line, false);
          lists := lists.(others := lists.others + [Spot(file, info)]);
        }
      } else {
        var info := MakeSpotInfo(kind, snippet, true);
        lists := lists.(decls := lists.decls + [Spot(file, info)]);
      }
      VisitLogged(was, lists, visits, indexGoCode, v);
      words := words[name := lists];
      visits := visits + {v};
    }

    /** The part of NewIndex that reduces the lists of every word: the index holds exactly the spots
        that were found, whatever was visited and in whatever order. */
    method NewIndex() returns (index: map<string, LookupResult>)
      requires Valid()
      ensures index.Keys == words.Keys && forall w :: w in words ==> Indexed(index[w], words[w])
      ensures forall w :: w in index ==> Answers(index[w], visits, indexGoCode, w)
      ensures forall v :: v in visits ==> v.name in index
    {
      hide Found, Indexed, ListOk, Consistent, HitsOk, Faithful, Answers, Logged;
      index := map[];
      var todo := words.Keys;
      while todo != {}
        invariant todo <= words.Keys && index.Keys == words.Keys - todo
        invariant forall w :: w in index ==> Indexed(index[w], words[w]) && Answers(index[w], visits, indexGoCode, w)
        decreases |todo|
      {
        var w :| w in todo;
        var h := words[w];
        FoundReady(h, clause);
        var decls := ReduceSpots(h.decls);
        var others := ReduceSpots(h.others);
        IsIndexed(LookupResult(decls, others), h);
        IndexAnswers(LookupResult(decls, others), h, visits, indexGoCode, w);
        index := index[w := LookupResult(decls, others)];
        todo := todo - {w};
      }
    }
  }

  lemma IsIndexed(l: LookupResult, r: IndexResult)
    requires HitsOk(l.decls) && Faithful(l.decls, r.decls) && HitsOk(l.others) && Faithful(l.others, r.others)
    ensures Indexed(l, r)
  {
  }
}
