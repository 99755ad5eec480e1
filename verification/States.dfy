/** putitem and state (cmd/goyacc/yacc.go): the list of states and its look-up. Module
    KernelStore has the facts about the stored values, StateLists the procedures. */
module KernelStore {
  import opened Grammars
  import opened Items
  import opened Lookaheads
  import opened WorkingSets
  import opened Kernels

  const NSTATES := 8000
  const ACTSIZE := 120000

  const DONE := 0
  const MUSTDO := 1
  const MUSTLOOKAHEAD := 2

  /** The item with its dot moved over the next symbol, as putitem leaves it. */
  function Advance(p: Pitem): Pitem
    requires 0 <= p.off && p.off + 1 < |p.prod|
  {
    Pitem(p.prod, p.off + 1, p.prod[p.off + 1], p.prodno)
  }

  lemma AdvanceOk(g: Grammar, p: Pitem)
    requires WellFormed(g) && PitemOk(g, p) && p.first > 0
    ensures 0 <= p.off && p.off + 1 < |p.prod| && PitemOk(g, Advance(p))
    ensures ItemOf(Advance(p)) == Lr0(ItemOf(p).rule, ItemOf(p).dot + 1)
  {
    PitemShape(g, p);
    RuleShape(g, ItemOf(p).rule);
    var q := Advance(p);
    assert ItemOf(q) == Lr0(ItemOf(p).rule, ItemOf(p).dot + 1);
    assert ItemOf(p).rule == 0 ==> g.prods[0] == [NTBASE] + Rhs(g, 0) + [0];
  }

  // ------------------------------------------------------------------ layout

  ghost predicate LayoutOk(sm: seq<Item>, ps: seq<int>, n: int) {
    && |ps| == NSTATES + 2 && 0 <= n < NSTATES && ps[0] == 0
    && forall i, j :: 0 <= i <= j <= n + 1 ==> 0 <= ps[i] <= ps[j] <= |sm|
  }

  lemma LaidBounds(sm: seq<Item>, ps: seq<int>, n: int)
    requires LayoutOk(sm, ps, n)
    ensures |ps| == NSTATES + 2 && 0 <= n < NSTATES && 0 <= ps[n] <= ps[n + 1] <= |sm|
    ensures KernAt(sm, ps, n) == sm[ps[n]..ps[n + 1]]
  {
    assert LayoutOk(sm, ps, n);
  }

  /** The items of state i; state n is the one being put together. */
  ghost function KernAt(sm: seq<Item>, ps: seq<int>, i: int): seq<Item> {
    if 0 <= i && i + 1 < |ps| && 0 <= ps[i] <= ps[i + 1] <= |sm| then sm[ps[i]..ps[i + 1]] else []
  }

  lemma LaidAt(sm: seq<Item>, ps: seq<int>, n: int, i: int)
    requires LayoutOk(sm, ps, n) && 0 <= i < n
    ensures |ps| == NSTATES + 2 && 0 <= n < NSTATES && 0 <= ps[i] <= ps[i + 1] <= ps[n] <= ps[n + 1] <= |sm|
  {
    assert LayoutOk(sm, ps, n);
  }

  /** The states below n have the same items. */
  ghost predicate SameKerns(sm: seq<Item>, ps: seq<int>, sm': seq<Item>, ps': seq<int>, n: int) {
    forall i :: 0 <= i < n ==> KernAt(sm', ps', i) == KernAt(sm, ps, i)
  }

  /** Replacing what lies from the state being built on. */
  lemma TailReplaced(sm: seq<Item>, ps: seq<int>, n: int, sm': seq<Item>, ps': seq<int>)
    requires LayoutOk(sm, ps, n) && |ps'| == |ps| == NSTATES + 2 && 0 <= n < NSTATES && ps'[..n + 1] == ps[..n + 1]
    requires 0 <= ps[n] <= ps'[n + 1] <= |sm'| && ps[n] <= |sm| && sm'[..ps[n]] == sm[..ps[n]]
    ensures LayoutOk(sm', ps', n) && SameKerns(sm, ps, sm', ps', n)
    ensures KernAt(sm', ps', n) == sm'[ps[n]..ps'[n + 1]]
  {
    assert forall i :: 0 <= i <= n ==> ps'[i] == ps'[..n + 1][i] == ps[i];
    assert LayoutOk(sm', ps', n);
    forall i | 0 <= i < n
      ensures KernAt(sm', ps', i) == KernAt(sm, ps, i)
    {
      assert ps[i] <= ps[i + 1] <= ps[n];
      assert sm[ps[i]..ps[i + 1]] == sm[..ps[n]][ps[i]..ps[i + 1]];
      assert sm'[ps[i]..ps[i + 1]] == sm'[..ps[n]][ps[i]..ps[i + 1]];
    }
  }

  /** The state being built becomes state n, and an empty one is begun. */
  lemma StateClosed(sm: seq<Item>, ps: seq<int>, n: int, ps': seq<int>)
    requires LayoutOk(sm, ps, n) && 0 <= n && n + 1 < NSTATES && |ps| == NSTATES + 2 && ps' == ps[n + 2 := ps[n + 1]]
    ensures LayoutOk(sm, ps', n + 1) && SameKerns(sm, ps, sm, ps', n + 1) && KernAt(sm, ps', n + 1) == []
  {
    assert LayoutOk(sm, ps', n + 1);
  }

  /** The items stored for the states are the given kernels, sorted. */
  ghost predicate KernelMatches(g: Grammar, kern: seq<Item>, kernel: set<Lr0>) {
    KernelShape(g, kern) && Sorted(kern) && kernel == KernelSet(kern)
  }

  ghost predicate KernelsMatch(g: Grammar, sm: seq<Item>, ps: seq<int>, kernels: seq<set<Lr0>>) {
    forall i :: 0 <= i < |kernels| ==> KernelMatches(g, KernAt(sm, ps, i), kernels[i])
  }

  lemma MatchesAt(g: Grammar, sm: seq<Item>, ps: seq<int>, kernels: seq<set<Lr0>>, i: int)
    requires KernelsMatch(g, sm, ps, kernels) && 0 <= i < |kernels|
    ensures KernelMatches(g, KernAt(sm, ps, i), kernels[i])
  {
  }

  lemma MatchesFrame(g: Grammar, sm: seq<Item>, ps: seq<int>, kernels: seq<set<Lr0>>, sm': seq<Item>, ps': seq<int>)
    requires KernelsMatch(g, sm, ps, kernels) && SameKerns(sm, ps, sm', ps', |kernels|)
    ensures KernelsMatch(g, sm', ps', kernels)
  {
    forall i | 0 <= i < |kernels|
      ensures KernelMatches(g, KernAt(sm', ps', i), kernels[i])
    {
      assert KernelMatches(g, KernAt(sm, ps, i), kernels[i]);
    }
  }

  lemma MatchesPush(g: Grammar, sm: seq<Item>, ps: seq<int>, kernels: seq<set<Lr0>>, kernel: set<Lr0>)
    requires KernelsMatch(g, sm, ps, kernels) && KernelMatches(g, KernAt(sm, ps, |kernels|), kernel)
    ensures KernelsMatch(g, sm, ps, kernels + [kernel])
  {
    assert KernelsMatch(g, sm, ps, kernels + [kernel]);
  }

  /** The symbol before the dot of every item is c. */
  ghost predicate EnteredBy(g: Grammar, kernel: set<Lr0>, c: int) {
    forall it :: it in kernel ==> ValidItem(g, it) && it.dot > 0 && Rhs(g, it.rule)[it.dot - 1] == c
  }

  ghost predicate AllEntered(g: Grammar, m: Automaton) {
    |m.kernels| <= |m.access| && forall j :: 0 < j < |m.kernels| ==> EnteredBy(g, m.kernels[j], m.access[j])
  }

  /** The states are told apart by their kernels. */
  ghost predicate Apart(g: Grammar, m: Automaton) {
    KernelsOk(g, m) && DistinctKernels(m) && AllEntered(g, m)
  }

  lemma ApartPush(g: Grammar, m: Automaton, kernel: set<Lr0>, c: int)
    requires Apart(g, m) && |m.kernels| == |m.access| && KernelOk(g, kernel) && EnteredBy(g, kernel, c)
    requires forall j :: 0 <= j < |m.kernels| ==> m.kernels[j] != kernel
    ensures Apart(g, Automaton(m.kernels + [kernel], m.access + [c]))
  {
    var m' := Automaton(m.kernels + [kernel], m.access + [c]);
    forall i, j | 0 <= i < j < |m'.kernels|
      ensures m'.kernels[i] != m'.kernels[j]
    {
      assert j < |m.kernels| ==> m.kernels[i] != m.kernels[j];
    }
    assert DistinctKernels(m');
    assert KernelsOk(g, m');
    assert AllEntered(g, m');
  }

  // ------------------------------------------------------------------ sorting

  /** Any two entries can be told apart by the order. */
  ghost predicate OrderedApart(a: seq<Item>) {
    forall i, j :: 0 <= i < j < |a| ==> Less(a[i].pitem, a[j].pitem) || Less(a[j].pitem, a[i].pitem)
  }

  /** What the sort keeps about the state being built. */
  ghost predicate Sorting(was: seq<Item>, a: seq<Item>) {
    OrderedApart(a) && SameEntries(was, a)
  }

  lemma ApartEntries(g: Grammar, a: seq<Item>)
    requires CoreShape(g, a)
    ensures OrderedApart(a)
  {
    forall i, j | 0 <= i < j < |a|
      ensures Less(a[i].pitem, a[j].pitem) || Less(a[j].pitem, a[i].pitem)
    {
      DifferentItemsCompare(g, a[i].pitem, a[j].pitem);
    }
  }

  lemma SortedShape(g: Grammar, was: seq<Item>, a: seq<Item>)
    requires CoreShape(g, was) && SameEntries(was, a) && SortedTo(a, |a|)
    ensures CoreShape(g, a) && Sorted(a)
    ensures LooksBounded(g, was) ==> LooksBounded(g, a)
  {
    forall k | 0 <= k < |a|
      ensures a[k] in was
    {
      assert a[k] in a;
    }
    forall j, k | 0 <= j < k < |a|
      ensures ItemOf(a[j].pitem) != ItemOf(a[k].pitem)
    {
      assert Less(a[j].pitem, a[k].pitem);
    }
  }

  /** The insertion sort of state, on the stretch of statemem that it sorts. */
  method InsertionSort(s: seq<Item>) returns (a: seq<Item>)
    requires OrderedApart(s)
    ensures Sorting(s, a) && SortedTo(a, |a|)
  {
    a := s;
    var k := 1;
    while k < |a|
      invariant 1 <= k && (k <= |a| || |a| == 0) && Sorting(s, a) && SortedTo(a, if |a| == 0 then 0 else k)
    {
      var l := k;
      while l > 0 && Less(a[l].pitem, a[l - 1].pitem)
        invariant l <= k < |a| && Sorting(s, a) && Sinking(a, k, l)
      {
        SwapSorting(s, a, l);
        SinkStep(a, k, l);
        a := a[l := a[l - 1]][l - 1 := a[l]];
        l := l - 1;
      }
      SinkStop(a, k, l);
      k := k + 1;
    }
  }

  /** Items up to k are in order except that the one at l may still have to sink. */
  ghost predicate Sinking(a: seq<Item>, k: nat, l: nat) {
    && l <= k < |a|
    && (forall i, j :: 0 <= i < j <= k && i != l && j != l ==> Less(a[i].pitem, a[j].pitem))
    && forall j :: l < j <= k ==> Less(a[l].pitem, a[j].pitem)
  }

  lemma SwapSorting(s: seq<Item>, a: seq<Item>, l: nat)
    requires Sorting(s, a) && 0 < l < |a|
    ensures Sorting(s, a[l := a[l - 1]][l - 1 := a[l]])
  {
    var b := a[l := a[l - 1]][l - 1 := a[l]];
    forall x
      ensures x in a <==> x in b
    {
      if x in a {
        var k :| 0 <= k < |a| && a[k] == x;
        assert b[if k == l then l - 1 else if k == l - 1 then l else k] == x;
      }
    }
  }

  lemma SinkStep(a: seq<Item>, k: nat, l: nat)
    requires Sinking(a, k, l) && l > 0 && Less(a[l].pitem, a[l - 1].pitem)
    ensures Sinking(a[l := a[l - 1]][l - 1 := a[l]], k, l - 1)
  {
  }

  lemma SinkStop(a: seq<Item>, k: nat, l: nat)
    requires OrderedApart(a) && Sinking(a, k, l) && (l == 0 || !Less(a[l].pitem, a[l - 1].pitem))
    ensures SortedTo(a, k + 1)
  {
    if l > 0 {
      assert Less(a[l - 1].pitem, a[l].pitem);
    }
    forall i, j | 0 <= i < j <= k
      ensures Less(a[i].pitem, a[j].pitem)
    {
      if j == l && i < l - 1 {
        assert Less(a[i].pitem, a[l - 1].pitem);
      }
    }
  }

  lemma StartKernel(g: Grammar, it: Pitem)
    requires WellFormed(g) && it == Pitem(g.prods[0], 1, g.prods[0][1], 0)
    ensures ItemOf(it) == StartItem && KernelOk(g, {StartItem}) && KernelMatches(g, [Item(it, {})], {StartItem})
  {
    RuleShape(g, 0);
    var kern := [Item(it, {})];
    assert ItemOf(kern[0].pitem) == StartItem;
    assert KernelSet(kern) == {StartItem};
  }

  lemma CoreNonempty(g: Grammar, kern: seq<Item>)
    requires CoreShape(g, kern)
    ensures KernelOk(g, KernelSet(kern))
  {
    assert ItemOf(kern[0].pitem) in KernelSet(kern);
  }

  /** When no state entered by c has the kernel, no state at all has it. */
  lemma NotKnown(g: Grammar, m: Automaton, c: int, kernel: set<Lr0>)
    requires Apart(g, m) && |m.kernels| == |m.access| && EnteredBy(g, kernel, c) && kernel != {}
    requires forall j :: 0 < j < |m.kernels| && m.access[j] == c ==> m.kernels[j] != kernel
    ensures forall j :: 0 <= j < |m.kernels| ==> m.kernels[j] != kernel
  {
    var it :| it in kernel;
    forall j | 0 <= j < |m.kernels|
      ensures m.kernels[j] != kernel
    {
      if j > 0 && m.access[j] != c {
        assert EnteredBy(g, m.kernels[j], m.access[j]);
        assert it !in m.kernels[j];
      } else if j == 0 {
        assert it !in m.kernels[0];
      }
    }
  }

  lemma SameKeys(f: Facts, a: seq<Item>, b: seq<Item>)
    requires Sized(f) && CoreShape(f.g, a) && CoreShape(f.g, b) && Sorted(a) && Sorted(b) && SameCore(a, b)
    ensures Keys(a) == Keys(b)
  {
    SameCoreSameSet(f.g, a, b);
  }

  lemma NewState(g: Grammar, sm: seq<Item>, ps: seq<int>, m: Automaton, c: int)
    requires KernelsMatch(g, sm, ps, m.kernels) && Apart(g, m) && |m.kernels| == |m.access|
    requires var kern := KernAt(sm, ps, |m.kernels|);
      CoreShape(g, kern) && LooksBounded(g, kern) && Sorted(kern) && EnteredBy(g, KernelSet(kern), c) &&
      forall j :: 0 <= j < |m.kernels| ==> m.kernels[j] != KernelSet(kern)
    ensures var kernel := KernelSet(KernAt(sm, ps, |m.kernels|));
      KernelsMatch(g, sm, ps, m.kernels + [kernel]) && Apart(g, Automaton(m.kernels + [kernel], m.access + [c]))
  {
    var kern := KernAt(sm, ps, |m.kernels|);
    ShapeSplits(g, kern);
    CoreNonempty(g, kern);
    MatchesPush(g, sm, ps, m.kernels, KernelSet(kern));
    ApartPush(g, m, KernelSet(kern), c);
  }

  // ------------------------------------------------------------------ merging

  function MergedItem(a: Item, b: Item): Item {
    a.(look := a.look + b.look)
  }

  /** Cell x after the cells q1..hi have taken in those from p1 on. */
  ghost function MergedCell(mem: seq<Item>, q1: int, hi: int, p1: int, x: int): Item
    requires 0 <= x < |mem| && 0 <= q1 && 0 <= p1 && p1 + (hi - q1) <= |mem|
  {
    if q1 <= x < hi then MergedItem(mem[x], mem[p1 + (x - q1)]) else mem[x]
  }

  /** The entries of a with the lookaheads of the entries of b added. */
  ghost function Merged(a: seq<Item>, b: seq<Item>): (m: seq<Item>)
    requires |a| == |b|
    ensures |m| == |a|
  {
    seq(|a|, k requires 0 <= k < |a| => MergedItem(a[k], b[k]))
  }

  lemma MergedShape(g: Grammar, a: seq<Item>, b: seq<Item>)
    requires |a| == |b| && KernelShape(g, a) && Sorted(a) && LooksBounded(g, b)
    ensures KernelShape(g, Merged(a, b)) && Sorted(Merged(a, b)) && KernelSet(Merged(a, b)) == KernelSet(a)
  {
    var m := Merged(a, b);
    assert forall k :: 0 <= k < |a| ==> m[k].pitem == a[k].pitem && m[k].look == a[k].look + b[k].look;
    KeysSet(a);
    KeysSet(m);
    assert Keys(m) == Keys(a);
  }

  lemma MergedLooks(g: Grammar, a: seq<Item>, b: seq<Item>, it: Lr0)
    requires |a| == |b| && Keys(a) == Keys(b)
    ensures KernLook(Merged(a, b), it) == KernLook(a, it) + KernLook(b, it)
  {
    var m := Merged(a, b);
    forall k | 0 <= k < |a|
      ensures ItemOf(a[k].pitem) == ItemOf(b[k].pitem) == ItemOf(m[k].pitem) && m[k].look == a[k].look + b[k].look
    {
      assert Keys(a)[k] == Keys(b)[k];
    }
    assert forall t :: t in KernLook(a, it) ==> t in KernLook(m, it);
    assert forall t :: t in KernLook(b, it) ==> t in KernLook(m, it);
  }

  /** The lookaheads stored for an item. */
  ghost function KernLook(kern: seq<Item>, it: Lr0): set<nat> {
    set t: nat, k | 0 <= k < |kern| && ItemOf(kern[k].pitem) == it && t in kern[k].look :: t
  }

  lemma SameEntriesSameLooks(a: seq<Item>, b: seq<Item>, it: Lr0)
    requires SameEntries(a, b)
    ensures KernLook(a, it) == KernLook(b, it)
  {
    forall t
      ensures t in KernLook(a, it) <==> t in KernLook(b, it)
    {
      if t in KernLook(a, it) {
        var k :| 0 <= k < |a| && ItemOf(a[k].pitem) == it && t in a[k].look;
        assert a[k] in b;
        var j :| 0 <= j < |b| && b[j] == a[k];
      }
      if t in KernLook(b, it) {
        var k :| 0 <= k < |b| && ItemOf(b[k].pitem) == it && t in b[k].look;
        assert b[k] in a;
        var j :| 0 <= j < |a| && a[j] == b[k];
      }
    }
  }

  lemma KernLookAt(g: Grammar, kern: seq<Item>, k: nat)
    requires CoreShape(g, kern) && k < |kern|
    ensures KernLook(kern, ItemOf(kern[k].pitem)) == kern[k].look
  {
    forall j | 0 <= j < |kern| && ItemOf(kern[j].pitem) == ItemOf(kern[k].pitem)
      ensures j == k
    {
    }
  }

  /** Some lookahead of the kernel's items is new. */
  ghost predicate Grew(g: Grammar, kernel: set<Lr0>, kern: seq<Item>, kern': seq<Item>) {
    exists it, t: nat :: it in kernel && t <= g.ntokens && t in KernLook(kern', it) && t !in KernLook(kern, it)
  }

  lemma MergedGrows(g: Grammar, a: seq<Item>, b: seq<Item>)
    requires KernelShape(g, a) && LooksBounded(g, b) && Keys(a) == Keys(b) && Merged(a, b) != a
    ensures Grew(g, KernelSet(a), a, Merged(a, b))
  {
    var m := Merged(a, b);
    var k :| 0 <= k < |a| && m[k] != a[k];
    var t: nat :| t in b[k].look && t !in a[k].look;
    KernLookAt(g, a, k);
    MergedLooks(g, a, b, ItemOf(a[k].pitem));
    assert Keys(a)[k] == Keys(b)[k];
    assert ItemOf(a[k].pitem) in KernelSet(a);
  }

  /** State j has the lookaheads it had, if it existed, and those of the state just built. */
  ghost predicate LooksTaken(sm: seq<Item>, ps: seq<int>, n: int, sm': seq<Item>, ps': seq<int>, j: int,
                             built: seq<Item>) {
    forall it :: KernLook(KernAt(sm', ps', j), it)
              == (if j < n then KernLook(KernAt(sm, ps, j), it) else {}) + KernLook(built, it)
  }

  ghost predicate OthersKept(sm: seq<Item>, ps: seq<int>, n: int, sm': seq<Item>, ps': seq<int>, j: int) {
    forall k :: 0 <= k < n && k != j ==> KernAt(sm', ps', k) == KernAt(sm, ps, k)
  }

  /** Either state j has gained a lookahead, or it is as it was and tystate is too. */
  ghost predicate RaisedIfGrew(g: Grammar, kernels: seq<set<Lr0>>, sm: seq<Item>, ps: seq<int>, sm': seq<Item>,
                               ps': seq<int>, ty: seq<int>, ty': seq<int>, j: int) {
    0 <= j < |kernels| ==>
      if KernAt(sm', ps', j) == KernAt(sm, ps, j) then ty' == ty
      else Grew(g, kernels[j], KernAt(sm, ps, j), KernAt(sm', ps', j))
  }

  /** State j is marked to be done when it is new or its items have changed; no other mark changes. */
  ghost predicate Marked(sm: seq<Item>, ps: seq<int>, n: int, sm': seq<Item>, ps': seq<int>, ty: seq<int>,
                         ty': seq<int>, j: int) {
    && 0 <= j < |ty| == NSTATES
    && ty' == if j < n && KernAt(sm', ps', j) == KernAt(sm, ps, j) then ty else ty[j := MUSTDO]
  }

  /** After state i has taken in the lookaheads of the state built at p1 = ps[n]. */
  lemma KernsAfterMerge(mem: seq<Item>, mem': seq<Item>, ps: seq<int>, n: int, i: int, built: seq<Item>)
    requires LayoutOk(mem, ps, n) && |mem'| == |mem| && 0 < i < n < |ps| - 1
    requires 0 <= ps[n] && ps[n] + |built| <= |mem| && mem[ps[n]..ps[n] + |built|] == built
    requires |KernAt(mem, ps, i)| == |built|
    requires 0 <= ps[i] <= ps[i + 1] && ps[n] + (ps[i + 1] - ps[i]) <= |mem|
    requires forall x :: 0 <= x < |mem| ==> mem'[x] == MergedCell(mem, ps[i], ps[i + 1], ps[n], x)
    ensures LayoutOk(mem', ps, n) && KernAt(mem', ps, i) == Merged(KernAt(mem, ps, i), built)
    ensures forall j :: 0 <= j < n && j != i ==> KernAt(mem', ps, j) == KernAt(mem, ps, j)
    ensures mem' != mem <==> KernAt(mem', ps, i) != KernAt(mem, ps, i)
  {
    assert LayoutOk(mem, ps, n) && ps[i + 1] <= ps[n];
    MergedKern(mem, mem', ps, n, i, built);
    forall j | 0 <= j < n && j != i
      ensures KernAt(mem', ps, j) == KernAt(mem, ps, j)
    {
      SameCells(mem, mem', ps, n, i, j);
    }
    if KernAt(mem', ps, i) == KernAt(mem, ps, i) {
      SameKernSameCells(mem, mem', ps, n, i);
    }
  }

  lemma MergedKern(mem: seq<Item>, mem': seq<Item>, ps: seq<int>, n: int, i: int, built: seq<Item>)
    requires 0 <= n < |ps| && 0 <= i < n && 0 <= ps[i] <= ps[i + 1] <= ps[n] && |mem'| == |mem|
    requires ps[n] + |built| <= |mem| && mem[ps[n]..ps[n] + |built|] == built && ps[i + 1] - ps[i] == |built|
    requires forall x :: 0 <= x < |mem| ==> mem'[x] == MergedCell(mem, ps[i], ps[i + 1], ps[n], x)
    ensures KernAt(mem', ps, i) == Merged(KernAt(mem, ps, i), built)
  {
    var was, now := KernAt(mem, ps, i), KernAt(mem', ps, i);
    forall x | 0 <= x < |built|
      ensures now[x] == MergedItem(was[x], built[x])
    {
      assert built[x] == mem[ps[n] + x];
      assert now[x] == mem'[ps[i] + x];
    }
  }

  lemma SameKernSameCells(mem: seq<Item>, mem': seq<Item>, ps: seq<int>, n: int, i: int)
    requires 0 <= n < |ps| && 0 <= i < n && 0 <= ps[i] <= ps[i + 1] <= |mem| == |mem'|
    requires forall x :: 0 <= x < |mem| && !(ps[i] <= x < ps[i + 1]) ==> mem'[x] == mem[x]
    requires KernAt(mem', ps, i) == KernAt(mem, ps, i)
    ensures mem' == mem
  {
    forall x | ps[i] <= x < ps[i + 1]
      ensures mem'[x] == mem[x]
    {
      assert KernAt(mem', ps, i)[x - ps[i]] == mem'[x] && KernAt(mem, ps, i)[x - ps[i]] == mem[x];
    }
  }

  lemma SameCells(mem: seq<Item>, mem': seq<Item>, ps: seq<int>, n: int, i: int, j: int)
    requires LayoutOk(mem, ps, n) && |mem'| == |mem| && 0 <= i < n && 0 <= j <= n && j != i
    requires forall x :: 0 <= x < |mem| && !(ps[i] <= x < ps[i + 1]) ==> mem'[x] == mem[x]
    ensures KernAt(mem', ps, j) == KernAt(mem, ps, j)
  {
    assert j < i ==> ps[j + 1] <= ps[i];
    assert j > i ==> ps[i + 1] <= ps[j];
    var a, b := KernAt(mem, ps, j), KernAt(mem', ps, j);
    forall x | 0 <= x < |a|
      ensures a[x] == b[x]
    {
      assert a[x] == mem[ps[j] + x] && b[x] == mem'[ps[j] + x];
    }
  }

  lemma MatchesAfterMerge(g: Grammar, mem: seq<Item>, mem': seq<Item>, ps: seq<int>, kernels: seq<set<Lr0>>, i: int,
                          built: seq<Item>)
    requires KernelsMatch(g, mem, ps, kernels) && 0 < i < |kernels|
    requires LooksBounded(g, built) && |KernAt(mem, ps, i)| == |built|
    requires KernAt(mem', ps, i) == Merged(KernAt(mem, ps, i), built)
    requires forall j :: 0 <= j < |kernels| && j != i ==> KernAt(mem', ps, j) == KernAt(mem, ps, j)
    ensures KernelsMatch(g, mem', ps, kernels)
  {
    assert KernelMatches(g, KernAt(mem, ps, i), kernels[i]);
    MergedShape(g, KernAt(mem, ps, i), built);
    forall j | 0 <= j < |kernels|
      ensures KernelMatches(g, KernAt(mem', ps, j), kernels[j])
    {
      assert KernelMatches(g, KernAt(mem, ps, j), kernels[j]);
    }
  }

  // ------------------------------------------------------------------ chains

  lemma HeadIsLast(g: Grammar, access: seq<int>, tstates: seq<int>, ntstates: seq<int>, mstates: seq<int>, c: int)
    requires g.ntokens < NTBASE && ChainsOk(g, access, tstates, ntstates, mstates)
    requires 0 <= c <= g.ntokens || NTBASE <= c <= NTBASE + g.nnonter
    ensures Head(tstates, ntstates, c) == Last(access, c, |access|)
  {
    assert c >= NTBASE ==> NTBASE + (c - NTBASE) == c;
  }

  lemma ChainNext(g: Grammar, access: seq<int>, tstates: seq<int>, ntstates: seq<int>, mstates: seq<int>, i: int)
    requires ChainsOk(g, access, tstates, ntstates, mstates) && 0 < i < |access|
    ensures i < |mstates| && mstates[i] == Last(access, access[i], i)
  {
  }

  lemma ChainedPush(g: Grammar, access: seq<int>, tstates: seq<int>, ntstates: seq<int>, mstates: seq<int>, c: int,
                    tstates': seq<int>, ntstates': seq<int>, mstates': seq<int>)
    requires g.ntokens < NTBASE && ChainsOk(g, access, tstates, ntstates, mstates)
    requires 0 < |access| < |mstates| && (0 <= c <= g.ntokens || NTBASE <= c <= NTBASE + g.nnonter)
    requires tstates' == if c < NTBASE then tstates[c := |access|] else tstates
    requires ntstates' == if c < NTBASE then ntstates else ntstates[c - NTBASE := |access|]
    requires mstates' == mstates[|access| := Head(tstates, ntstates, c)]
    ensures ChainsOk(g, access + [c], tstates', ntstates', mstates')
  {
    ChainsPush(g, access, tstates, ntstates, mstates, c, tstates', ntstates', mstates');
  }
}

module StateLists {
  import opened Grammars
  import opened Items
  import opened Lookaheads
  import opened WorkingSets
  import opened Kernels
  import opened KernelStore

  class StateList {
    const f: Facts
    var statemem: seq<Item>
    var pstate: seq<int>
    var nstate: int
    var tystate: seq<int>
    var tstates: seq<int>
    var ntstates: seq<int>
    var mstates: seq<int>
    ghost var auto: Automaton

    /** The items of state i; state nstate is the one being put together. */
    ghost function Kern(i: int): seq<Item>
      reads this
    {
      KernAt(statemem, pstate, i)
    }

    /** The finished states, their chains, and the LR(0) automaton they stand for; says
        nothing about the items of the state being built. */
    ghost predicate Valid()
      reads this
    {
      && Sized(f) && f.g.ntokens < NTBASE && LayoutOk(statemem, pstate, nstate) && 0 < nstate < NSTATES
      && |tstates| == f.g.ntokens + 1 && |ntstates| == f.g.nnonter + 1
      && |auto.kernels| == |auto.access| == nstate && |tystate| == NSTATES == |mstates|
      && KernelsMatch(f.g, statemem, pstate, auto.kernels)
      && ChainsOk(f.g, auto.access, tstates, ntstates, mstates)
      && Apart(f.g, auto)
    }

    /** The start of stagen: state 0 has the item that looks for the start symbol, with no
        lookaheads. */
    constructor (f: Facts)
      requires Sized(f)
      ensures this.f == f && Valid() && nstate == 1 && Kern(nstate) == []
      ensures auto == Automaton([{StartItem}], [0])
      ensures Kern(0) == [Item(Pitem(f.g.prods[0], 1, f.g.prods[0][1], 0), {})]
      ensures tystate[0] == MUSTDO
    {
      this.f := f;
      tstates := seq(f.g.ntokens + 1, _ => 0);
      ntstates := seq(f.g.nnonter + 1, _ => 0);
      mstates := seq(NSTATES, _ => 0);
      pstate := seq(NSTATES + 2, _ => 0);
      statemem := [];
      nstate := 0;
      tystate := seq(NSTATES, _ => 0);
      auto := Automaton([{StartItem}], [0]);
      new;
      assert LayoutOk(statemem, pstate, 0);
      PutItem(Pitem(f.g.prods[0], 0, 0, 0), {}, false);
      StateClosed(statemem, pstate, 0, pstate[2 := pstate[1]]);
      tystate := tystate[0 := MUSTDO];
      nstate := 1;
      pstate := pstate[2 := pstate[1]];
      var it := Pitem(f.g.prods[0], 1, f.g.prods[0][1], 0);
      assert Kern(0) == [Item(it, {})];
      StartKernel(f.g, it);
      assert KernelsMatch(f.g, statemem, pstate, auto.kernels);
      assert ChainsOk(f.g, auto.access, tstates, ntstates, mstates);
      assert KernelsOk(f.g, auto) && DistinctKernels(auto) && AllEntered(f.g, auto);
    }

    /** putitem: the item, advanced, goes to the end of the state being built. With
        lookaheads turned off the look field keeps whatever the cell held. */
    method PutItem(p: Pitem, look: set<nat>, nolook: bool)
      requires LayoutOk(statemem, pstate, nstate) && 0 <= p.off && p.off + 1 < |p.prod|
      modifies this`statemem, this`pstate
      ensures LayoutOk(statemem, pstate, nstate) && SameKerns(old(statemem), old(pstate), statemem, pstate, nstate)
      ensures |Kern(nstate)| == |old(Kern(nstate))| + 1
      ensures Kern(nstate)[..|old(Kern(nstate))|] == old(Kern(nstate))
      ensures Kern(nstate)[|old(Kern(nstate))|].pitem == Advance(p)
      ensures !nolook ==> Kern(nstate) == old(Kern(nstate)) + [Item(Advance(p), look)]
    {
      hide Sized, LayoutOk, KernelsMatch, ChainsOk, Apart;
      LaidBounds(statemem, pstate, nstate);
      var j := pstate[nstate + 1];
      var x := Item(Advance(p), if !nolook then look else if j < |statemem| then statemem[j].look else {});
      statemem := statemem[..j] + [x] + (if j < |statemem| then statemem[j + 1..] else []);
      pstate := pstate[nstate + 1 := j + 1];
      assert statemem[..pstate[nstate]] == old(statemem)[..pstate[nstate]];
      TailReplaced(old(statemem), old(pstate), nstate, statemem, pstate);
      assert Kern(nstate) == old(Kern(nstate)) + [x];
    }

    /** Sorts the state being built. */
    method SortLast()
      requires LayoutOk(statemem, pstate, nstate) && CoreShape(f.g, Kern(nstate))
      modifies this`statemem
      ensures LayoutOk(statemem, pstate, nstate) && SameKerns(old(statemem), pstate, statemem, pstate, nstate)
      ensures CoreShape(f.g, Kern(nstate)) && Sorted(Kern(nstate)) && SameEntries(old(Kern(nstate)), Kern(nstate))
      ensures LooksBounded(f.g, old(Kern(nstate))) ==> LooksBounded(f.g, Kern(nstate))
    {
      hide Sized, LayoutOk, KernelsMatch, ChainsOk, Apart, CoreShape, Sorted, LooksBounded, SortedTo, OrderedApart;
      LaidBounds(statemem, pstate, nstate);
      var p1 := pstate[nstate];
      var p2 := pstate[nstate + 1];
      ghost var was := Kern(nstate);
      ApartEntries(f.g, was);
      var a := InsertionSort(statemem[p1..p2]);
      SortedShape(f.g, was, a);
      statemem := statemem[..p1] + a + statemem[p2..];
      assert statemem[p1..p2] == a;
      TailReplaced(old(statemem), pstate, nstate, statemem, pstate);
    }

    /** The comparison of state i with the state being built. */
    method SameAs(i: int) returns (same: bool)
      requires LayoutOk(statemem, pstate, nstate) && 0 <= i < nstate
      ensures same <==> SameCore(Kern(i), Kern(nstate))
    {
      hide Sized, LayoutOk, KernelsMatch, ChainsOk, Apart;
      LaidAt(statemem, pstate, nstate, i);
      LaidBounds(statemem, pstate, nstate);
      var p1, q1, q2 := pstate[nstate], pstate[i], pstate[i + 1];
      if pstate[nstate + 1] - p1 != q2 - q1 {
        return false;
      }
      var k := p1;
      for l := q1 to q2
        invariant k == p1 + (l - q1)
        invariant forall x :: 0 <= x < l - q1 ==>
          Kern(i)[x].pitem.prod == Kern(nstate)[x].pitem.prod && Kern(i)[x].pitem.off == Kern(nstate)[x].pitem.off
      {
        assert Kern(i)[l - q1] == statemem[l] && Kern(nstate)[l - q1] == statemem[k];
        if statemem[l].pitem.prod != statemem[k].pitem.prod || statemem[l].pitem.off != statemem[k].pitem.off {
          return false;
        }
        k := k + 1;
      }
      return true;
    }

    lemma CompareWith(i: int)
      requires Valid() && CoreShape(f.g, Kern(nstate)) && Sorted(Kern(nstate)) && 0 <= i < nstate
      ensures SameCore(Kern(i), Kern(nstate)) <==> auto.kernels[i] == KernelSet(Kern(nstate))
    {
      MatchesAt(f.g, statemem, pstate, auto.kernels, i);
      SameCoreSameSet(f.g, Kern(i), Kern(nstate));
    }

    /** The search along the chain of c: 0 when no state entered by c has the items of the
        state being built. */
    method Lookup(c: int) returns (i: int)
      requires Valid() && CoreShape(f.g, Kern(nstate)) && Sorted(Kern(nstate))
      requires 0 <= c <= f.g.ntokens || NTBASE <= c <= NTBASE + f.g.nnonter
      ensures 0 <= i < nstate
      ensures i > 0 ==>
        auto.access[i] == c && SameCore(Kern(i), Kern(nstate)) && auto.kernels[i] == KernelSet(Kern(nstate))
      ensures i == 0 ==> forall j :: 0 < j < nstate && auto.access[j] == c ==>
        auto.kernels[j] != KernelSet(Kern(nstate))
    {
      hide Sized, LayoutOk, KernelsMatch, ChainsOk, Apart, CoreShape, Sorted, SameCore, KernAt;
      ghost var access, target := auto.access, KernelSet(Kern(nstate));
      HeadIsLast(f.g, access, tstates, ntstates, mstates, c);
      i := Head(tstates, ntstates, c);
      while i != 0
        invariant 0 <= i < nstate && (i > 0 ==> access[i] == c)
        invariant forall j :: i < j < nstate && access[j] == c ==> auto.kernels[j] != target
        decreases i
      {
        CompareWith(i);
        var same := SameAs(i);
        if same {
          return i;
        }
        ChainNext(f.g, access, tstates, ntstates, mstates, i);
        i := mstates[i];
      }
    }

    /** The loop that fixes up lookaheads, cell by cell. */
    method MergeCells(i: int, q1: int, q2: int, p1: int)
      requires 0 <= i < |tystate| && 0 <= q1 <= q2 <= p1 && p1 + (q2 - q1) <= |statemem|
      modifies this`statemem, this`tystate
      ensures |statemem| == |old(statemem)|
      ensures forall x :: 0 <= x < |statemem| ==> statemem[x] == MergedCell(old(statemem), q1, q2, p1, x)
      ensures tystate == if statemem != old(statemem) then old(tystate)[i := MUSTDO] else old(tystate)
    {
      ghost var mem := statemem;
      var k := p1;
      for l := q1 to q2
        invariant k == p1 + (l - q1) && |statemem| == |mem|
        invariant forall x :: 0 <= x < |mem| ==> statemem[x] == MergedCell(mem, q1, l, p1, x)
        invariant tystate == if statemem != mem then old(tystate)[i := MUSTDO] else old(tystate)
      {
        ghost var before := statemem;
        if !(statemem[k].look <= statemem[l].look) {
          tystate := tystate[i := MUSTDO];
        }
        assert statemem[l] == mem[l] && statemem[k] == mem[k] && k == p1 + (l - q1);
        var cell := MergedItem(statemem[l], statemem[k]);
        statemem := statemem[l := cell];
        assert statemem[k].look <= before[l].look <==> cell == before[l];
        if cell == before[l] {
          assert statemem == before;
        } else {
          assert statemem[l] != mem[l];
        }
        k := k + 1;
      }
    }

    /** The loop that fixes up the lookaheads of an existing state i: entry by entry it
        takes in those of the state that was built at p1 and then discarded. */
    method FixLooks(i: int, p1: int, ghost built: seq<Item>)
      requires Valid() && 0 < i < nstate && |pstate| == NSTATES + 2 && nstate < NSTATES
      requires 0 <= pstate[nstate] == pstate[nstate + 1] == p1 && p1 + |built| <= |statemem|
      requires statemem[p1..p1 + |built|] == built
      requires SameCore(Kern(i), built) && LooksBounded(f.g, built)
      modifies this`statemem, this`tystate
      ensures Valid() && Kern(nstate) == []
      ensures Kern(i) == Merged(old(Kern(i)), built)
      ensures OthersKept(old(statemem), pstate, nstate, statemem, pstate, i)
      ensures tystate == if Kern(i) != old(Kern(i)) then old(tystate)[i := MUSTDO] else old(tystate)
    {
      hide Sized, LayoutOk, KernelsMatch, ChainsOk, Apart, LooksBounded;
      ghost var mem := statemem;
      LaidAt(statemem, pstate, nstate, i);
      MergeCells(i, pstate[i], pstate[i + 1], p1);
      KernsAfterMerge(mem, statemem, pstate, nstate, i, built);
      MatchesAfterMerge(f.g, mem, statemem, pstate, auto.kernels, i, built);
    }

    /** What state needs of the state being built: it was entered by c. */
    ghost predicate Built(c: int, nolook: bool)
      reads this
    {
      var kern := Kern(nstate);
      && CoreShape(f.g, kern) && EnteredBy(f.g, KernelSet(kern), c)
      && (0 <= c <= f.g.ntokens || NTBASE <= c <= NTBASE + f.g.nnonter)
      && (nolook || LooksBounded(f.g, kern))
    }

    /** The kernel of some state is that of the state being built. */
    ghost predicate Known()
      reads this
    {
      exists j :: 0 < j < |auto.kernels| && auto.kernels[j] == KernelSet(Kern(nstate))
    }

    /** state: looks the state being built up among those entered by c, adds its lookaheads
        to the one found or registers it as new, and returns its number. ok is false when
        there are too many states. */
    method State(c: int, nolook: bool) returns (ok: bool, i: int)
      requires Valid() && Built(c, nolook) && (nolook ==> Known())
      modifies this
      ensures old(Known()) ==> ok
      ensures !ok ==> nstate + 1 >= NSTATES && nstate == old(nstate) && auto == old(auto)
      ensures ok ==> Valid() && Kern(nstate) == [] && 0 < i < nstate && (i < old(nstate) <==> old(Known()))
      ensures ok ==> auto.access[i] == c && auto.kernels[i] == old(KernelSet(Kern(nstate)))
      ensures ok ==> auto == if i < old(nstate) then old(auto)
                             else Automaton(old(auto).kernels + [auto.kernels[i]], old(auto).access + [c])
      ensures ok ==> OthersKept(old(statemem), old(pstate), old(nstate), statemem, pstate, i)
      ensures ok && nolook ==>
        SameKerns(old(statemem), old(pstate), statemem, pstate, nstate) && tystate == old(tystate)
      ensures ok && !nolook ==>
        LooksTaken(old(statemem), old(pstate), old(nstate), statemem, pstate, i, old(Kern(nstate)))
      ensures ok && !nolook ==>
        RaisedIfGrew(f.g, old(auto).kernels, old(statemem), old(pstate), statemem, pstate, old(tystate), tystate, i)
      ensures ok ==> Marked(old(statemem), old(pstate), old(nstate), statemem, pstate, old(tystate), tystate, i)
    {
      hide Sized, LayoutOk, KernelsMatch, ChainsOk, Apart, CoreShape, Sorted, SameCore, LooksBounded, EnteredBy, KernAt,
        KernelSet;
      SortBuilt(c);
      LaidBounds(statemem, pstate, nstate);
      ghost var built := Kern(nstate);
      var p1, p2 := pstate[nstate], pstate[nstate + 1];
      i := Lookup(c);
      ok := true;
      if i != 0 {
        Found(c, i, p1, nolook);
      } else {
        NotKnown(f.g, auto, c, KernelSet(built));
        if nstate + 1 >= NSTATES {
          ok := false;
        } else {
          NewState(f.g, statemem, pstate, auto, c);
          Register(c, p2, KernelSet(built));
          i := nstate - 1;
        }
      }
    }

    /** The sort at the head of state. */
    method SortBuilt(ghost c: int)
      requires Valid() && CoreShape(f.g, Kern(nstate)) && EnteredBy(f.g, KernelSet(Kern(nstate)), c)
      modifies this`statemem
      ensures Valid() && SameKerns(old(statemem), pstate, statemem, pstate, nstate)
      ensures CoreShape(f.g, Kern(nstate)) && Sorted(Kern(nstate)) && EnteredBy(f.g, KernelSet(Kern(nstate)), c)
      ensures KernelOk(f.g, KernelSet(Kern(nstate)))
      ensures LooksBounded(f.g, old(Kern(nstate))) ==> LooksBounded(f.g, Kern(nstate))
      ensures KernelSet(Kern(nstate)) == old(KernelSet(Kern(nstate)))
      ensures forall it :: KernLook(Kern(nstate), it) == old(KernLook(Kern(nstate), it))
    {
      hide Sized, LayoutOk, KernelsMatch, ChainsOk, Apart, CoreShape, Sorted, EnteredBy, LooksBounded, SameEntries,
        KernAt, KernelSet;
      ghost var built0 := Kern(nstate);
      SortLast();
      MatchesFrame(f.g, old(statemem), old(pstate), auto.kernels, statemem, pstate);
      SameEntriesSameSet(built0, Kern(nstate));
      CoreNonempty(f.g, Kern(nstate));
      forall it
        ensures KernLook(Kern(nstate), it) == KernLook(built0, it)
      {
        SameEntriesSameLooks(built0, Kern(nstate), it);
      }
    }

    /** The middle of state: the state being built is state i. */
    method Found(c: int, i: int, p1: int, nolook: bool)
      requires Valid() && 0 < i < nstate && |pstate| == NSTATES + 2 && nstate < NSTATES && pstate[nstate] == p1
      requires CoreShape(f.g, Kern(nstate)) && Sorted(Kern(nstate)) && (nolook || LooksBounded(f.g, Kern(nstate)))
      requires SameCore(Kern(i), Kern(nstate))
      modifies this`statemem, this`pstate, this`tystate
      ensures Valid() && Kern(nstate) == []
      ensures OthersKept(old(statemem), old(pstate), nstate, statemem, pstate, i)
      ensures nolook ==> SameKerns(old(statemem), old(pstate), statemem, pstate, nstate)
      ensures nolook ==> tystate == old(tystate)
      ensures !nolook ==> LooksTaken(old(statemem), old(pstate), nstate, statemem, pstate, i, old(Kern(nstate)))
      ensures !nolook && Kern(i) != old(Kern(i)) ==> Grew(f.g, auto.kernels[i], old(Kern(i)), Kern(i))
      ensures tystate == if Kern(i) == old(Kern(i)) then old(tystate) else old(tystate)[i := MUSTDO]
    {
      hide Sized, LayoutOk, KernelsMatch, ChainsOk, Apart, CoreShape, Sorted, SameCore, LooksBounded, KernAt;
      ghost var ps, built, kern := pstate, Kern(nstate), Kern(i);
      LaidBounds(statemem, pstate, nstate);
      MatchesAt(f.g, statemem, pstate, auto.kernels, i);
      SameKeys(f, kern, built);
      pstate := pstate[nstate + 1 := p1];
      TailReplaced(statemem, ps, nstate, statemem, pstate);
      MatchesFrame(f.g, statemem, ps, auto.kernels, statemem, pstate);
      if nolook {
        return;
      }
      FixLooks(i, p1, built);
      forall it
        ensures KernLook(Kern(i), it) == KernLook(kern, it) + KernLook(built, it)
      {
        MergedLooks(f.g, kern, built, it);
      }
      if Kern(i) != kern {
        MergedGrows(f.g, kern, built);
      }
    }

    /** The end of state: the state being built is new. */
    method Register(c: int, p2: int, ghost kernel: set<Lr0>)
      requires Valid() && nstate + 1 < NSTATES && |pstate| == NSTATES + 2 && pstate[nstate + 1] == p2
      requires 0 <= c <= f.g.ntokens || NTBASE <= c <= NTBASE + f.g.nnonter
      requires KernelsMatch(f.g, statemem, pstate, auto.kernels + [kernel])
      requires Apart(f.g, Automaton(auto.kernels + [kernel], auto.access + [c]))
      modifies this
      ensures Valid() && Kern(nstate) == [] && nstate == old(nstate) + 1
      ensures auto == Automaton(old(auto).kernels + [kernel], old(auto).access + [c])
      ensures SameKerns(old(statemem), old(pstate), statemem, pstate, old(nstate) + 1)
      ensures tystate == old(tystate)[old(nstate) := MUSTDO]
    {
      hide Sized, LayoutOk, KernelsMatch, ChainsOk, Apart, KernAt;
      StateClosed(statemem, pstate, nstate, pstate[nstate + 2 := p2]);
      MatchesFrame(f.g, statemem, pstate, auto.kernels + [kernel], statemem, pstate[nstate + 2 := p2]);
      pstate := pstate[nstate + 2 := p2];
      if c >= NTBASE {
        ChainedPush(f.g, auto.access, tstates, ntstates, mstates, c,
                    tstates, ntstates[c - NTBASE := nstate], mstates[nstate := ntstates[c - NTBASE]]);
        mstates := mstates[nstate := ntstates[c - NTBASE]];
        ntstates := ntstates[c - NTBASE := nstate];
      } else {
        ChainedPush(f.g, auto.access, tstates, ntstates, mstates, c,
                    tstates[c := nstate], ntstates, mstates[nstate := tstates[c]]);
        mstates := mstates[nstate := tstates[c]];
        tstates := tstates[c := nstate];
      }
      tystate := tystate[nstate := MUSTDO];
      auto := Automaton(auto.kernels + [kernel], auto.access + [c]);
      nstate := nstate + 1;
    }
  }
}
