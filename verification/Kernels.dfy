/** Sorted kernels and the chains of states by accessing symbol (cmd/goyacc/yacc.go):
    the value-level facts that state and stagen rest on. */
module Kernels {
  import opened Grammars
  import opened Items
  import opened WorkingSets

  /** The order state sorts items by. */
  predicate Less(a: Pitem, b: Pitem) {
    a.prodno < b.prodno || (a.prodno == b.prodno && a.off < b.off)
  }

  ghost predicate Sorted(kern: seq<Item>) {
    forall j, k :: 0 <= j < k < |kern| ==> Less(kern[j].pitem, kern[k].pitem)
  }

  /** Items in order, pairwise different, but with lookaheads left open. */
  ghost predicate CoreShape(g: Grammar, kern: seq<Item>) {
    && kern != []
    && (forall k :: 0 <= k < |kern| ==> PitemOk(g, kern[k].pitem))
    && (forall k :: 0 <= k < |kern| ==> ItemOf(kern[k].pitem).dot > 0 || ItemOf(kern[k].pitem) == StartItem)
    && (forall j, k :: 0 <= j < k < |kern| ==> ItemOf(kern[j].pitem) != ItemOf(kern[k].pitem))
  }

  ghost predicate LooksBounded(g: Grammar, kern: seq<Item>) {
    forall k, t :: 0 <= k < |kern| && t in kern[k].look ==> t <= g.ntokens
  }

  lemma ShapeSplits(g: Grammar, kern: seq<Item>)
    ensures KernelShape(g, kern) <==> CoreShape(g, kern) && LooksBounded(g, kern)
  {
  }

  lemma DifferentItemsCompare(g: Grammar, p: Pitem, q: Pitem)
    requires PitemOk(g, p) && PitemOk(g, q) && ItemOf(p) != ItemOf(q)
    ensures Less(p, q) || Less(q, p)
  {
  }

  /** The same entries, in any order. */
  ghost predicate SameEntries(a: seq<Item>, b: seq<Item>) {
    |a| == |b| && forall x :: x in a <==> x in b
  }

  lemma SameEntriesSameSet(a: seq<Item>, b: seq<Item>)
    requires SameEntries(a, b)
    ensures KernelSet(a) == KernelSet(b)
  {
    forall it
      ensures it in KernelSet(a) <==> it in KernelSet(b)
    {
      if it in KernelSet(a) {
        var k :| 0 <= k < |a| && ItemOf(a[k].pitem) == it;
        assert a[k] in b;
        var j :| 0 <= j < |b| && b[j] == a[k];
      }
      if it in KernelSet(b) {
        var k :| 0 <= k < |b| && ItemOf(b[k].pitem) == it;
        assert b[k] in a;
        var j :| 0 <= j < |a| && a[j] == b[k];
      }
    }
  }

  /** The first k items are in order. */
  ghost predicate SortedTo(a: seq<Item>, k: nat) {
    k <= |a| && forall i, j :: 0 <= i < j < k ==> Less(a[i].pitem, a[j].pitem)
  }

  // ------------------------------------------------------------------ equal kernels

  /** The comparison state makes: same productions, same offsets, position by position. */
  ghost predicate SameCore(a: seq<Item>, b: seq<Item>) {
    |a| == |b| && forall k :: 0 <= k < |a| ==> a[k].pitem.prod == b[k].pitem.prod && a[k].pitem.off == b[k].pitem.off
  }

  ghost predicate Before(a: Lr0, b: Lr0) {
    a.rule < b.rule || (a.rule == b.rule && a.dot < b.dot)
  }

  ghost function Keys(kern: seq<Item>): (keys: seq<Lr0>)
    ensures |keys| == |kern| && forall k :: 0 <= k < |kern| ==> keys[k] == ItemOf(kern[k].pitem)
  {
    seq(|kern|, k requires 0 <= k < |kern| => ItemOf(kern[k].pitem))
  }

  ghost predicate InOrder(keys: seq<Lr0>) {
    forall j, k :: 0 <= j < k < |keys| ==> Before(keys[j], keys[k])
  }

  lemma {:induction false} OrderUnique(a: seq<Lr0>, b: seq<Lr0>)
    requires InOrder(a) && InOrder(b) && forall x :: x in a <==> x in b
    ensures a == b
    decreases |a|
  {
    if a == [] {
      assert forall k :: 0 <= k < |b| ==> b[k] in a;
    } else {
      assert a[0] in b && b != [] && b[0] in a;
      FirstIsLeast(a, b[0]);
      FirstIsLeast(b, a[0]);
      assert a[0] == b[0];
      forall x
        ensures x in a[1..] <==> x in b[1..]
      {
        TailMembers(a, x);
        TailMembers(b, x);
      }
      OrderUnique(a[1..], b[1..]);
      assert a == [a[0]] + a[1..] && b == [b[0]] + b[1..];
    }
  }

  lemma FirstIsLeast(a: seq<Lr0>, x: Lr0)
    requires InOrder(a) && x in a
    ensures x == a[0] || Before(a[0], x)
  {
  }

  lemma TailMembers(a: seq<Lr0>, x: Lr0)
    requires InOrder(a) && a != []
    ensures x in a[1..] <==> x in a && x != a[0]
  {
    if x in a && x != a[0] {
      var k :| 0 <= k < |a| && a[k] == x;
      assert a[1..][k - 1] == x;
    }
    if x in a[1..] {
      var k :| 0 <= k < |a[1..]| && a[1..][k] == x;
      assert a[k + 1] == x && Before(a[0], a[k + 1]);
    }
  }

  /** Sorted kernels compare equal, position by position, exactly when they hold the
      same items. */
  lemma SameCoreSameSet(g: Grammar, a: seq<Item>, b: seq<Item>)
    requires WellFormed(g) && CoreShape(g, a) && CoreShape(g, b) && Sorted(a) && Sorted(b)
    ensures SameCore(a, b) <==> KernelSet(a) == KernelSet(b)
    ensures SameCore(a, b) ==> Keys(a) == Keys(b)
  {
    if SameCore(a, b) {
      forall k | 0 <= k < |a|
        ensures ItemOf(a[k].pitem) == ItemOf(b[k].pitem)
      {
        SameItem(g, a[k].pitem, b[k].pitem);
      }
      assert Keys(a) == Keys(b);
      KeysSet(a);
      KeysSet(b);
    }
    if KernelSet(a) == KernelSet(b) {
      KeysSet(a);
      KeysSet(b);
      KeysInOrder(g, a);
      KeysInOrder(g, b);
      OrderUnique(Keys(a), Keys(b));
      forall k | 0 <= k < |a|
        ensures a[k].pitem.prod == b[k].pitem.prod && a[k].pitem.off == b[k].pitem.off
      {
        assert Keys(a)[k] == Keys(b)[k];
        SameItem(g, a[k].pitem, b[k].pitem);
      }
    }
  }

  lemma KeysInOrder(g: Grammar, a: seq<Item>)
    requires WellFormed(g) && CoreShape(g, a) && Sorted(a)
    ensures InOrder(Keys(a))
  {
    forall j, k | 0 <= j < k < |a|
      ensures Before(Keys(a)[j], Keys(a)[k])
    {
      PitemShape(g, a[j].pitem);
      PitemShape(g, a[k].pitem);
      assert Less(a[j].pitem, a[k].pitem);
    }
  }

  lemma KeysSet(a: seq<Item>)
    ensures forall x :: x in Keys(a) <==> x in KernelSet(a)
  {
    forall x
      ensures x in Keys(a) <==> x in KernelSet(a)
    {
      if x in KernelSet(a) {
        var k :| 0 <= k < |a| && ItemOf(a[k].pitem) == x;
        assert Keys(a)[k] == x;
      }
    }
  }

  // ------------------------------------------------------------------ chains

  /** The last state below n entered by c, or 0. */
  ghost function Last(access: seq<int>, c: int, n: nat): (j: nat)
    requires n <= |access|
    ensures j == 0 || (0 < j < n && access[j] == c)
    ensures forall k :: j < k < n ==> access[k] != c
  {
    if n <= 1 then 0
    else if access[n - 1] == c then n - 1
    else Last(access, c, n - 1)
  }

  lemma {:induction false} LastExtends(access: seq<int>, x: int, c: int, n: nat)
    requires n <= |access|
    ensures Last(access + [x], c, n) == Last(access, c, n)
  {
    if n > 1 {
      LastExtends(access, x, c, n - 1);
    }
  }

  ghost predicate ChainsOk(g: Grammar, access: seq<int>, tstates: seq<int>, ntstates: seq<int>, mstates: seq<int>) {
    && |access| <= |mstates| && |tstates| == g.ntokens + 1 && |ntstates| == g.nnonter + 1
    && (forall c :: 0 <= c < |tstates| ==> tstates[c] == Last(access, c, |access|))
    && (forall c :: 0 <= c < |ntstates| ==> ntstates[c] == Last(access, NTBASE + c, |access|))
    && forall j: nat :: 0 < j < |access| ==> mstates[j] == Last(access, access[j], j)
  }

  function Head(tstates: seq<int>, ntstates: seq<int>, c: int): int {
    if NTBASE <= c < NTBASE + |ntstates| then ntstates[c - NTBASE]
    else if 0 <= c < |tstates| then tstates[c]
    else 0
  }

  lemma LastPush(access: seq<int>, c: int, x: int)
    requires 0 < |access|
    ensures Last(access + [c], x, |access| + 1) == if x == c then |access| else Last(access, x, |access|)
  {
    LastExtends(access, c, x, |access|);
  }

  /** Registering a new state in front of its chain. */
  lemma ChainsPush(g: Grammar, access: seq<int>, tstates: seq<int>, ntstates: seq<int>, mstates: seq<int>, c: int,
                   tstates': seq<int>, ntstates': seq<int>, mstates': seq<int>)
    requires g.ntokens < NTBASE && ChainsOk(g, access, tstates, ntstates, mstates)
    requires 0 < |access| < |mstates| && (0 <= c <= g.ntokens || NTBASE <= c <= NTBASE + g.nnonter)
    requires tstates' == if c < NTBASE then tstates[c := |access|] else tstates
    requires ntstates' == if c < NTBASE then ntstates else ntstates[c - NTBASE := |access|]
    requires mstates' == mstates[|access| := Head(tstates, ntstates, c)]
    ensures ChainsOk(g, access + [c], tstates', ntstates', mstates')
  {
    var n, access' := |access|, access + [c];
    forall x | 0 <= x < |tstates'|
      ensures tstates'[x] == Last(access', x, n + 1)
    {
      LastPush(access, c, x);
    }
    forall x | 0 <= x < |ntstates'|
      ensures ntstates'[x] == Last(access', NTBASE + x, n + 1)
    {
      LastPush(access, c, NTBASE + x);
    }
    forall j: nat | 0 < j < n + 1
      ensures mstates'[j] == Last(access', access'[j], j)
    {
      LastExtends(access, c, access'[j], j);
      assert j == n && c >= NTBASE ==> NTBASE + (c - NTBASE) == c;
    }
  }
}
