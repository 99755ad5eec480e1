/** A lookahead that stagen loses. Line 1760 of cmd/goyacc/yacc.go overwrites the mark that
    line 1997 has set, in the grammar S: A;  A: x A B | ;  B: b; */
module LostLookahead {
  import opened Grammars
  import opened Items
  import opened Lookaheads
  import opened WorkingSets
  import opened KernelStore
  import opened Collecting
  import opened Rounds
  import opened Propagation

  const XTOK := 4
  const BTOK := 5
  const A := NTBASE + 1
  const B := NTBASE + 2

  /** $accept: A $end;  A: x A B | ;  B: b; */
  const LOSSY := Grammar([[NTBASE, A, ENDTOK, 0], [A, XTOK, A, B, -1], [A, -2], [B, BTOK, -3]], 5, 2)

  const AfterX := Lr0(1, 1)
  const AfterA := Lr0(1, 2)
  const Long := Lr0(1, 0)
  const Empty := Lr0(2, 0)

  lemma LossyRules()
    ensures WellFormed(LOSSY) && forall r :: 0 <= r < 4 ==> HasRule(LOSSY, r)
    ensures Rhs(LOSSY, 0) == [A, ENDTOK] && Rhs(LOSSY, 1) == [XTOK, A, B] && Rhs(LOSSY, 2) == []
    ensures Rhs(LOSSY, 3) == [BTOK]
    ensures Lhs(LOSSY, 0) == NTBASE && Lhs(LOSSY, 1) == A && Lhs(LOSSY, 2) == A && Lhs(LOSSY, 3) == B
  {
    forall r: nat | 1 <= r < |LOSSY.prods|
      ensures WellFormedRule(LOSSY, r)
    {
      assert r == 1 || r == 2 || r == 3;
    }
  }

  lemma StepFrom(s: int, c: seq<int>)
    requires Step(LOSSY, [s], c) && (s == B || s == BTOK)
    ensures s == B && c == [BTOK]
  {
    LossyRules();
    var k: nat, r: nat :| StepAt(LOSSY, [s], c, k, r);
    assert k == 0 && r < 4;
    assert [s][..0] == [] && [s][1..] == [];
  }

  lemma {:induction false} OnlyB(w: seq<int>, n: nat)
    requires DerivesIn(LOSSY, [B], w, n)
    ensures w == [B] || w == [BTOK]
  {
    hide Step;
    if n > 0 {
      var c :| Step(LOSSY, [B], c) && DerivesIn(LOSSY, c, w, n - 1);
      StepFrom(B, c);
      TokenOnly(w, n - 1);
    }
  }

  lemma {:induction false} TokenOnly(w: seq<int>, n: nat)
    requires DerivesIn(LOSSY, [BTOK], w, n)
    ensures w == [BTOK]
  {
    hide Step;
    if n > 0 {
      var c :| Step(LOSSY, [BTOK], c) && DerivesIn(LOSSY, c, w, n - 1);
      StepFrom(BTOK, c);
    }
  }

  /** What follows A in A: x A B is b, whatever comes after. */
  lemma {:induction false} RestIsB(f: Facts, la: set<nat>)
    requires FactsOk(f) && f.g == LOSSY
    ensures RestLook(f, [B], la) == {BTOK}
  {
    LossyRules();
    DerivesNothing(LOSSY, [BTOK]);
    DerivesByRule(LOSSY, 3, [BTOK]);
    forall t: nat
      ensures t in RestLook(f, [B], la) <==> t == BTOK
    {
      RestLookExact(f, [B], la, t);
      if Follows(LOSSY, [B], la, t) {
        var w :| Derives(LOSSY, [B], w) && ((IsToken(LOSSY, t) && |w| > 0 && w[0] == t) || (t in la && w == []));
        var n: nat :| DerivesIn(LOSSY, [B], w, n);
        OnlyB(w, n);
      }
    }
  }

  lemma Passed(f: Facts, la: set<nat>)
    requires FactsOk(f) && f.g == LOSSY
    ensures PassesOn(f, AfterX, la) == {BTOK} && PassesOn(f, StartItem, la) == {ENDTOK}
  {
    LossyRules();
    RestIsB(f, la);
    assert RestOf(LOSSY, AfterX) == [B];
    assert RestOf(LOSSY, StartItem) == [ENDTOK];
  }

  // ------------------------------------------------------------------ the automaton

  lemma ItemsAt(it: Lr0)
    requires ValidItem(LOSSY, it)
    ensures Next(LOSSY, it) == A <==> it == StartItem || it == AfterX
    ensures Next(LOSSY, it) == XTOK <==> it == Long
    ensures Next(LOSSY, it) != NTBASE
    ensures it.dot > 0 && Rhs(LOSSY, it.rule)[it.dot - 1] == XTOK <==> it == AfterX
    ensures it == AfterA ==> it.dot > 0 && Rhs(LOSSY, it.rule)[it.dot - 1] == A
  {
    LossyRules();
    assert it.rule < 4;
  }

  lemma {:induction false} CornerA(c: int, n: nat)
    requires Corner(LOSSY, c, A, n)
    ensures c == A || c == NTBASE
  {
    LossyRules();
    if n > 0 {
      var q: nat :| CornerStep(LOSSY, c, q) && Corner(LOSSY, Rhs(LOSSY, q)[0], A, n - 1);
      assert q == 0;
    }
  }

  /** The state after x. */
  ghost predicate IsX(m: Automaton, k: int) {
    0 <= k < |m.kernels| && m.kernels[k] == {AfterX}
  }

  lemma OnlyX(m: Automaton, k: int)
    requires Apart(LOSSY, m) && 0 <= k < |m.kernels| && AfterX in m.kernels[k]
    ensures IsX(m, k) && k > 0 && m.access[k] == XTOK
  {
    assert k > 0;
    assert EnteredBy(LOSSY, m.kernels[k], m.access[k]);
    ItemsAt(AfterX);
    forall it | it in m.kernels[k]
      ensures it == AfterX
    {
      ItemsAt(it);
    }
  }

  /** The item A: . x A B is in the closure of the start state and of the state after x only. */
  lemma HasLong(m: Automaton, k: int)
    requires Apart(LOSSY, m) && 0 <= k < |m.kernels| && InClosure(LOSSY, m.kernels[k], Long)
    ensures k == 0 || IsX(m, k)
  {
    LossyRules();
    assert KernelOk(LOSSY, m.kernels[k]);
    assert k > 0 ==> EnteredBy(LOSSY, m.kernels[k], m.access[k]);
    var p :|
      p in m.kernels[k] && ValidItem(LOSSY, p) && Next(LOSSY, p) >= NTBASE && LeftCorner(LOSSY, Next(LOSSY, p), A);
    var n: nat :| Corner(LOSSY, Next(LOSSY, p), A, n);
    CornerA(Next(LOSSY, p), n);
    ItemsAt(p);
    if p == AfterX {
      OnlyX(m, k);
    }
  }

  /** The state after x is entered from the start state and from itself, on x. */
  lemma IntoX(m: Automaton, k: int, c: int, j: int)
    requires Apart(LOSSY, m) && Trans(LOSSY, m, k, c, j) && AfterX in m.kernels[j]
    ensures c == XTOK && IsX(m, j) && (k == 0 || k == j)
  {
    hide Apart, InClosure;
    OnlyX(m, j);
    LossyRules();
    assert InGoto(LOSSY, m.kernels[k], c, AfterX);
    HasLong(m, k);
    if k > 0 {
      SameState(m, k, j);
    }
  }

  lemma SameState(m: Automaton, k: int, j: int)
    requires Apart(LOSSY, m) && IsX(m, k) && IsX(m, j)
    ensures k == j
  {
    hide KernelsOk, AllEntered;
  }

  /** The state after x A is entered from the state after x only. */
  lemma IntoA(m: Automaton, k: int, c: int, j: int)
    requires Apart(LOSSY, m) && Trans(LOSSY, m, k, c, j) && AfterA in m.kernels[j]
    ensures IsX(m, k) && c == A && j != k
  {
    hide Apart;
    LossyRules();
    assert InGoto(LOSSY, m.kernels[k], c, AfterA);
    OnlyX(m, k);
  }

  // ------------------------------------------------------------------ closures

  /** The entries for the two rules of A get la from the closure of a kernel that holds k only. */
  ghost function ClosureMap(k: Lr0, own: set<nat>, la: set<nat>): LookMap {
    map[k := own, Long := la, Empty := la]
  }

  lemma ClosureMapClosed(f: Facts, k: Lr0, own: set<nat>, la: set<nat>)
    requires FactsOk(f) && f.g == LOSSY && (k == StartItem || k == AfterX)
    requires la == if k == StartItem then {ENDTOK} else {BTOK}
    ensures ClosedMap(f, ClosureMap(k, own, la))
  {
    hide PassesOn, FactsOk;
    LossyRules();
    Passed(f, own);
    var mp := ClosureMap(k, own, la);
    forall it, r: nat | it in mp && Introduces(LOSSY, it, r)
      ensures Lr0(r, 0) in mp && PassesOn(f, it, mp[it]) <= mp[Lr0(r, 0)]
    {
      ItemsAt(it);
      assert r < 4;
    }
  }

  /** The closure of the start state, or of the state after x. */
  ghost predicate Closes(f: Facts, kernel: seq<Item>, ws: seq<Wset>, k: Lr0) {
    ClosureDone(f, false, kernel, ws) && KernelSet(kernel) == {k} && (k == StartItem || k == AfterX)
  }

  lemma {:induction false} EntryLooks(f: Facts, kernel: seq<Item>, ws: seq<Wset>, k: Lr0, q: nat)
    requires FactsOk(f) && f.g == LOSSY && Closes(f, kernel, ws, k) && q < |ws|
    ensures ItemOf(ws[q].pitem) == Long ==> ws[q].ws <= if k == StartItem then {ENDTOK} else {BTOK}
    ensures ItemOf(ws[q].pitem) == k ==> ws[q].ws <= KernLook(kernel, k)
  {
    hide FactsOk, ClosedMap, PassesOn;
    var own, la := KernLook(kernel, k), if k == StartItem then {ENDTOK} else {BTOK};
    ClosureMapClosed(f, k, own, la);
    forall x | 0 <= x < |kernel|
      ensures ItemOf(kernel[x].pitem) == k && kernel[x].look <= own
    {
      assert ItemOf(kernel[x].pitem) in KernelSet(kernel);
    }
    assert Includes(kernel, ClosureMap(k, own, la));
    assert Below(ws, ClosureMap(k, own, la));
  }

  lemma {:induction false} KernelFirst(f: Facts, kernel: seq<Item>, ws: seq<Wset>, k: Lr0)
    requires FactsOk(f) && f.g == LOSSY && Closes(f, kernel, ws, k)
    ensures |kernel| == 1 <= |ws| && ItemOf(ws[0].pitem) == k
  {
    assert |kernel| > 1 ==> ItemOf(kernel[0].pitem) != ItemOf(kernel[1].pitem);
    forall x | 0 <= x < |kernel|
      ensures ItemOf(kernel[x].pitem) == k
    {
      assert ItemOf(kernel[x].pitem) in KernelSet(kernel);
    }
  }

  /** Where closure has put the two rules of A: the empty one comes later. */
  lemma {:induction false} RulesOfA(f: Facts, kernel: seq<Item>, ws: seq<Wset>, k: Lr0) returns (px: nat, pe: nat)
    requires FactsOk(f) && f.g == LOSSY && Closes(f, kernel, ws, k)
    ensures 1 == |kernel| <= px < pe < |ws| && ItemOf(ws[px].pitem) == Long && ItemOf(ws[pe].pitem) == Empty
    ensures (if k == StartItem then ENDTOK else BTOK) in ws[px].ws
    ensures ws[px].pitem.first == XTOK && ws[pe].pitem.first <= ENDTOK
  {
    hide PassesOn, Inv, FactsOk, Done;
    LossyRules();
    KernelFirst(f, kernel, ws, k);
    ItemsAt(k);
    assert Introduces(LOSSY, k, 1) && Introduces(LOSSY, k, 2);
    px := ReachesEntry(f, false, kernel, ws, 0, 1);
    pe := ReachesEntry(f, false, kernel, ws, 0, 2);
    Passed(f, ws[0].ws);
    EntryFirst(f, kernel, ws, px);
    EntryFirst(f, kernel, ws, pe);
    assert SameLeft(LOSSY, 1, 2);
    assert EarlierIn(ws, pe, Lr0(1, 0));
    var v :| 0 <= v < pe && ItemOf(ws[v].pitem) == Long;
    OneEntry(f, kernel, ws, v, px);
  }

  lemma {:induction false} OneEntry(f: Facts, kernel: seq<Item>, ws: seq<Wset>, a: nat, b: nat)
    requires ClosureDone(f, false, kernel, ws) && a < |ws| && b < |ws| && ItemOf(ws[a].pitem) == ItemOf(ws[b].pitem)
    ensures a == b
  {
  }

  // ------------------------------------------------------------------ every run

  /** The state after x waits with the lookahead $end, and does not wait once it has b too. */
  ghost predicate XOk(s: Snap, k: int) {
    IsX(s.m, k) ==>
      k < |s.ty| && Look(s, k, AfterX) == if s.ty[k] == MUSTDO then {ENDTOK} else {ENDTOK, BTOK}
  }

  /** The state after x A does not have b. */
  ghost predicate AOk(s: Snap, k: int) {
    0 <= k < |s.m.kernels| && AfterA in s.m.kernels[k] ==> BTOK !in Look(s, k, AfterA)
  }

  ghost predicate AllX(s: Snap, but: int) {
    forall k :: 0 <= k < |s.m.kernels| && k != but ==> XOk(s, k)
  }

  ghost predicate AllA(s: Snap) {
    forall k :: 0 <= k < |s.m.kernels| ==> AOk(s, k)
  }

  /** ws is the closure of state i, which was waiting. */
  ghost predicate Taken(f: Facts, m: Automaton, i: int, kernel: seq<Item>, ws: seq<Wset>) {
    && FactsOk(f) && f.g == LOSSY && 0 <= i < |m.kernels| && ClosureDone(f, false, kernel, ws)
    && KernelSet(kernel) == m.kernels[i] && m.kernels[0] == {StartItem}
    && (IsX(m, i) ==> KernLook(kernel, AfterX) == {ENDTOK})
  }

  lemma TakenExtends(f: Facts, m: Automaton, m': Automaton, i: int, kernel: seq<Item>, ws: seq<Wset>)
    requires Taken(f, m, i, kernel, ws) && Extends(m, m')
    ensures Taken(f, m', i, kernel, ws)
  {
    hide FactsOk, ClosureDone;
    assert m'.kernels[i] == m.kernels[i] && m'.kernels[0] == m.kernels[0];
  }

  /** A goto that enters the state after x A brings no b. */
  lemma {:induction false} GotoA(f: Facts, s: Snap, i: int, kernel: seq<Item>, ws: seq<Wset>, c: int, j: int, s': Snap)
    requires Taken(f, s.m, i, kernel, ws) && AllA(s) && c > ENDTOK
    requires GotoStep(LOSSY, s, i, c, Picked(ws, c, |ws|), j, s')
    ensures AllA(s')
  {
    hide Picked, KernAt, Apart, Extends, Trans, ClosureDone, FactsOk, KernelSet;
    LossyRules();
    TakenExtends(f, s.m, s'.m, i, kernel, ws);
    ClosureEntriesOk(f, kernel, ws);
    forall k | 0 <= k < |s'.m.kernels| && AfterA in s'.m.kernels[k]
      ensures BTOK !in Look(s', k, AfterA)
    {
      ExtendsAt(s.m, s'.m, k);
      assert k < |s.m.kernels| ==> AOk(s, k);
      if k == j && BTOK in KernLook(Picked(ws, c, |ws|), AfterA) {
        IntoA(s'.m, i, c, j);
        var q := PickedOrigin(LOSSY, ws, c, AfterA, BTOK);
        EntryLooks(f, kernel, ws, AfterX, q);
      }
    }
  }

  lemma ExtendsAt(m: Automaton, m': Automaton, k: int)
    requires Extends(m, m')
    ensures 0 <= k < |m.kernels| ==> |m.kernels| <= |m'.kernels| && m'.kernels[k] == m.kernels[k]
  {
  }

  /** What the gotos on x bring: $end from the start state, b from the state after x. */
  lemma {:induction false} XBrings(f: Facts, kernel: seq<Item>, ws: seq<Wset>, k: Lr0)
    requires FactsOk(f) && f.g == LOSSY && Closes(f, kernel, ws, k)
    ensures KernLook(Picked(ws, XTOK, |ws|), AfterX) == if k == StartItem then {ENDTOK} else {BTOK}
  {
    hide Picked, FactsOk, ClosureDone, KernelSet;
    LossyRules();
    ClosureEntriesOk(f, kernel, ws);
    var px, pe := RulesOfA(f, kernel, ws, k);
    PickedHas(LOSSY, ws, XTOK, px);
    forall t: nat | t in KernLook(Picked(ws, XTOK, |ws|), AfterX)
      ensures t == if k == StartItem then ENDTOK else BTOK
    {
      var q := PickedOrigin(LOSSY, ws, XTOK, AfterX, t);
      EntryLooks(f, kernel, ws, k, q);
    }
  }

  /** A goto from another state than the one after x. */
  lemma {:induction false} GotoX(f: Facts, s: Snap, i: int, kernel: seq<Item>, ws: seq<Wset>, c: int, j: int, s': Snap)
    requires Taken(f, s.m, i, kernel, ws) && AllX(s, i) && c > ENDTOK && |s.m.kernels| <= NSTATES
    requires GotoStep(LOSSY, s, i, c, Picked(ws, c, |ws|), j, s')
    ensures AllX(s', i)
  {
    hide Picked, KernAt, KernLook, Apart, Extends, Trans, ClosureDone, FactsOk, KernelSet;
    TakenExtends(f, s.m, s'.m, i, kernel, ws);
    forall k | 0 <= k < |s'.m.kernels| && k != i && IsX(s'.m, k)
      ensures XOk(s', k)
    {
      ExtendsAt(s.m, s'.m, k);
      assert k < |s.m.kernels| ==> XOk(s, k);
      if k == j {
        IntoX(s'.m, i, c, j);
        XBrings(f, kernel, ws, StartItem);
        NoGrowth(s, i, c, Picked(ws, c, |ws|), j, s');
      }
    }
  }

  /** A state that has the lookaheads already is not marked. */
  lemma NoGrowth(s: Snap, i: int, c: int, picked: seq<Item>, j: int, s': Snap)
    requires GotoStep(LOSSY, s, i, c, picked, j, s') && IsX(s'.m, j)
    ensures 0 <= j < |s.m.kernels| && KernLook(picked, AfterX) <= Look(s, j, AfterX) ==> s'.ty == s.ty
    ensures Look(s', j, AfterX) == (if j < |s.m.kernels| then Look(s, j, AfterX) else {}) + KernLook(picked, AfterX)
    ensures j >= |s.m.kernels| ==> 0 <= j < |s'.ty| && s'.ty[j] == MUSTDO
  {
    hide KernAt, KernLook, Apart, Trans;
    if 0 <= j < |s.m.kernels| && KernLook(picked, AfterX) <= Look(s, j, AfterX) {
      assert s'.m.kernels[j] == s.m.kernels[j];
      assert Look(s', j, AfterX) == Look(s, j, AfterX);
    }
  }

  /** How the state after x fares in its own round: at px it gets b from itself and is marked, at
      pe the mark is overwritten. */
  ghost predicate Phase(s: Snap, i: int, px: nat, pe: nat, p: nat) {
    && IsX(s.m, i) && i < |s.ty| == NSTATES
    && Look(s, i, AfterX) == (if p <= px then {ENDTOK} else {ENDTOK, BTOK})
    && (p > pe ==> s.ty[i] != MUSTDO)
  }

  ghost predicate Places(ws: seq<Wset>, px: nat, pe: nat) {
    && 0 < px < pe < |ws| && ws[px].pitem.first == XTOK && ws[pe].pitem.first <= ENDTOK
    && forall q :: 0 <= q < |ws| && ws[q].pitem.first == XTOK ==> q == px
  }

  lemma {:induction false} PlacesIn(f: Facts, kernel: seq<Item>, ws: seq<Wset>, k: Lr0) returns (px: nat, pe: nat)
    requires FactsOk(f) && f.g == LOSSY && Closes(f, kernel, ws, k)
    ensures Places(ws, px, pe) && |kernel| == 1
  {
    hide FactsOk, ClosureDone;
    px, pe := RulesOfA(f, kernel, ws, k);
    forall q | 0 <= q < |ws| && ws[q].pitem.first == XTOK
      ensures q == px
    {
      EntryFirst(f, kernel, ws, q);
      ItemsAt(ItemOf(ws[q].pitem));
      OneEntry(f, kernel, ws, q, px);
    }
  }

  lemma {:induction false} OwnGoto(f: Facts, s: Snap, i: int, kernel: seq<Item>, ws: seq<Wset>, px: nat, pe: nat,
                                   p: nat, c: int, j: int, s': Snap)
    requires Taken(f, s.m, i, kernel, ws) && IsX(s.m, i) && Places(ws, px, pe) && Phase(s, i, px, pe, p)
    requires p < |ws| && ws[p].pitem.first == c && c > ENDTOK && GotoStep(LOSSY, s, i, c, Picked(ws, c, |ws|), j, s')
    ensures Phase(s', i, px, pe, p + 1)
  {
    hide Picked, KernAt, KernLook, Apart, Extends, Trans, ClosureDone, FactsOk, KernelSet;
    ExtendsAt(s.m, s'.m, i);
    XBrings(f, kernel, ws, AfterX);
    if p == px {
      IntoItself(s'.m, i, j);
      NoGrowth(s, i, c, Picked(ws, c, |ws|), j, s');
    } else if j == i {
      IntoX(s'.m, i, c, j);
      assert false;
    }
    assert p != px ==> Look(s', i, AfterX) == Look(s, i, AfterX);
  }

  lemma IntoItself(m: Automaton, i: int, j: int)
    requires Apart(LOSSY, m) && IsX(m, i) && Trans(LOSSY, m, i, XTOK, j)
    ensures j == i
  {
    hide Apart;
    LossyRules();
    OnlyX(m, i);
    assert Introduces(LOSSY, AfterX, 1);
    ClosureStep(LOSSY, m.kernels[i], AfterX, 1);
    assert InGoto(LOSSY, m.kernels[i], XTOK, AfterX);
    IntoX(m, i, XTOK, j);
  }

  /** The two cases of a round, up to entry p. */
  ghost predicate Midway(f: Facts, s: Snap, i: int, kernel: seq<Item>, ws: seq<Wset>, px: nat, pe: nat, p: nat) {
    && Taken(f, s.m, i, kernel, ws) && AllA(s) && AllX(s, i) && |s.m.kernels| <= NSTATES == |s.ty|
    && (IsX(s.m, i) ==> Places(ws, px, pe) && |kernel| == 1 && Phase(s, i, px, pe, p))
  }

  lemma {:induction false} MidwayGoto(f: Facts, s: Snap, i: int, kernel: seq<Item>, ws: seq<Wset>, px: nat, pe: nat,
                                      p: nat, c: int, j: int, s': Snap)
    requires Midway(f, s, i, kernel, ws, px, pe, p) && p < |ws| && ws[p].pitem.first == c && c > ENDTOK
    requires GotoStep(LOSSY, s, i, c, Picked(ws, c, |ws|), j, s')
    ensures Midway(f, s', i, kernel, ws, px, pe, p + 1)
  {
    hide Picked, GotoStep, AllA, AllX, Taken, Places, Phase;
    GotoBounds(s, i, c, Picked(ws, c, |ws|), j, s');
    ExtendsAt(s.m, s'.m, i);
    TakenExtends(f, s.m, s'.m, i, kernel, ws);
    GotoA(f, s, i, kernel, ws, c, j, s');
    GotoX(f, s, i, kernel, ws, c, j, s');
    if IsX(s'.m, i) {
      TakenState(f, s.m, i, kernel, ws);
      OwnGoto(f, s, i, kernel, ws, px, pe, p, c, j, s');
    }
  }

  lemma TakenState(f: Facts, m: Automaton, i: int, kernel: seq<Item>, ws: seq<Wset>)
    requires Taken(f, m, i, kernel, ws)
    ensures 0 <= i < |m.kernels|
  {
  }

  lemma GotoBounds(s: Snap, i: int, c: int, picked: seq<Item>, j: int, s': Snap)
    requires GotoStep(LOSSY, s, i, c, picked, j, s') && |s.m.kernels| <= NSTATES == |s.ty|
    ensures Extends(s.m, s'.m) && |s'.m.kernels| <= NSTATES == |s'.ty|
  {
    hide Trans, Apart, KernAt;
  }

  lemma {:induction false} MidwayLow(f: Facts, s: Snap, i: int, kernel: seq<Item>, ws: seq<Wset>, px: nat, pe: nat,
                                     p: nat, s': Snap)
    requires Midway(f, s, i, kernel, ws, px, pe, p) && p < |ws| && ws[p].pitem.first <= ENDTOK
    requires LowStep(s, i, |kernel|, p, s')
    ensures Midway(f, s', i, kernel, ws, px, pe, p + 1)
  {
    hide Taken, KernAt, KernLook;
    SameLook(s, s');
    forall k | 0 <= k < |s'.m.kernels| && k != i
      ensures XOk(s', k)
    {
      assert XOk(s, k);
    }
    forall k | 0 <= k < |s'.m.kernels|
      ensures AOk(s', k)
    {
      assert AOk(s, k);
    }
  }

  lemma {:induction false} MidwaySeen(f: Facts, s: Snap, i: int, kernel: seq<Item>, ws: seq<Wset>, px: nat, pe: nat,
                                      p: nat)
    requires Midway(f, s, i, kernel, ws, px, pe, p) && p < |ws| && SeenSymbol(ws, ws[p].pitem.first, p)
    requires ws[p].pitem.first > ENDTOK
    ensures Midway(f, s, i, kernel, ws, px, pe, p + 1)
  {
    hide Taken, KernAt, KernLook, AllX, AllA;
  }

  lemma {:induction false} MidwaySweep(f: Facts, i: int, kernel: seq<Item>, ws: seq<Wset>, px: nat, pe: nat, p: nat,
                                       s: Snap, s': Snap)
    requires Midway(f, s, i, kernel, ws, px, pe, 0) && p <= |ws| && Swept(LOSSY, i, |kernel|, ws, p, s, s')
    ensures Midway(f, s', i, kernel, ws, px, pe, p)
    decreases p
  {
    hide Midway, GotoStep, LowStep, Picked;
    if p > 0 {
      var c := ws[p - 1].pitem.first;
      var t :| Swept(LOSSY, i, |kernel|, ws, p - 1, s, t) && EntryStep(LOSSY, i, |kernel|, ws, p - 1, t, s');
      MidwaySweep(f, i, kernel, ws, px, pe, p - 1, s, t);
      if c <= ENDTOK {
        MidwayLow(f, t, i, kernel, ws, px, pe, p - 1, s');
      } else if SeenSymbol(ws, c, p - 1) {
        MidwaySeen(f, t, i, kernel, ws, px, pe, p - 1);
      } else {
        var j :| GotoStep(LOSSY, t, i, c, Picked(ws, c, |ws|), j, s');
        MidwayGoto(f, t, i, kernel, ws, px, pe, p - 1, c, j, s');
      }
    }
  }

  lemma {:induction false} RoundBegins(f: Facts, s: Snap, i: int, ws: seq<Wset>) returns (px: nat, pe: nat)
    requires FactsOk(f) && f.g == LOSSY && Proper(LOSSY, s) && AllX(s, -1) && AllA(s)
    requires 0 <= i < |s.m.kernels| && s.ty[i] == MUSTDO && ClosureDone(f, false, KernAt(s.sm, s.ps, i), ws)
    ensures Midway(f, Begun(s, i), i, KernAt(s.sm, s.ps, i), ws, px, pe, 0)
  {
    hide KernAt, KernLook, FactsOk, ClosureDone, KernelsMatch, HasPredecessors, DistinctKernels, AllEntered;
    var kernel := KernAt(s.sm, s.ps, i);
    ProperKernel(LOSSY, s, i);
    SameLook(s, Begun(s, i));
    forall k | 0 <= k < |s.m.kernels|
      ensures AOk(Begun(s, i), k) && (k != i ==> XOk(Begun(s, i), k))
    {
      assert XOk(s, k) && AOk(s, k);
    }
    if IsX(s.m, i) {
      assert XOk(s, i);
      px, pe := PlacesIn(f, kernel, ws, AfterX);
    } else {
      px, pe := 0, 0;
    }
  }

  lemma RoundEnds(f: Facts, s: Snap, i: int, kernel: seq<Item>, ws: seq<Wset>, px: nat, pe: nat)
    requires Midway(f, s, i, kernel, ws, px, pe, |ws|)
    ensures AllX(s, -1) && AllA(s)
  {
    hide Taken, AllA, KernAt, KernLook;
  }

  lemma {:induction false} RunLoses(f: Facts, s: Snap, n: nat)
    requires FactsOk(f) && f.g == LOSSY && RunIn(f, s, n)
    ensures AllX(s, -1) && AllA(s)
    decreases n
  {
    hide FactsOk, Apart, KernelsMatch, HasPredecessors, ClosureDone, Swept, Midway, AllX, AllA, KernAt;
    if n == 0 {
      InitialLooks(s);
    } else {
      var t, i :| RunIn(f, t, n - 1) && Round(f, t, i, s);
      RunLoses(f, t, n - 1);
      var ws :| RoundWith(f, t, i, ws, s);
      var px, pe := RoundBegins(f, t, i, ws);
      MidwaySweep(f, i, KernAt(t.sm, t.ps, i), ws, px, pe, |ws|, Begun(t, i), s);
      RoundEnds(f, s, i, KernAt(t.sm, t.ps, i), ws, px, pe);
    }
  }

  lemma InitialLooks(s: Snap)
    requires Initial(LOSSY, s)
    ensures AllX(s, -1) && AllA(s)
  {
  }

  /** Whatever the order of the rounds: when no state waits any more, the state after x A does not
      have the lookahead b, although it spreads there. */
  lemma {:induction false} LookaheadLost(f: Facts, s: Snap) returns (k: int)
    requires FactsOk(f) && f.g == LOSSY && Run(f, s) && Proper(LOSSY, s) && Still(s) && ClosedUnderGoto(LOSSY, s.m)
    ensures 0 <= k < |s.m.kernels| && AfterA in s.m.kernels[k]
    ensures BTOK !in Look(s, k, AfterA) && Spreads(f, s.m, k, AfterA, BTOK)
  {
    hide FactsOk, Apart, HasPredecessors, KernelsMatch, InClosure, Look;
    var n: nat :| RunIn(f, s, n);
    RunLoses(f, s, n);
    LossyRules();
    var j := StateAfterX(s.m);
    k := StateAfterA(s.m, j);
    assert AOk(s, k);
    BSpreads(f, s.m, j, k);
  }

  lemma StateAfterX(m: Automaton) returns (j: int)
    requires Apart(LOSSY, m) && ClosedUnderGoto(LOSSY, m)
    ensures IsX(m, j)
  {
    LossyRules();
    assert Introduces(LOSSY, StartItem, 1);
    ClosureStep(LOSSY, m.kernels[0], StartItem, 1);
    assert Expects(LOSSY, m, 0, XTOK);
    j :| Trans(LOSSY, m, 0, XTOK, j);
    assert InGoto(LOSSY, m.kernels[0], XTOK, AfterX);
    OnlyX(m, j);
  }

  lemma StateAfterA(m: Automaton, j: int) returns (k: int)
    requires Apart(LOSSY, m) && ClosedUnderGoto(LOSSY, m) && IsX(m, j)
    ensures Trans(LOSSY, m, j, XTOK, j) && Trans(LOSSY, m, j, A, k) && AfterA in m.kernels[k]
    ensures InClosure(LOSSY, m.kernels[j], AfterX) && InClosure(LOSSY, m.kernels[j], Long)
  {
    hide Apart;
    LossyRules();
    assert Introduces(LOSSY, AfterX, 1);
    ClosureStep(LOSSY, m.kernels[j], AfterX, 1);
    assert Expects(LOSSY, m, j, XTOK) by {
      assert Next(LOSSY, Long) == XTOK;
    }
    var x :| Trans(LOSSY, m, j, XTOK, x);
    IntoItself(m, j, x);
    assert Expects(LOSSY, m, j, A) by {
      assert Next(LOSSY, AfterX) == A;
    }
    k :| Trans(LOSSY, m, j, A, k);
    assert InGoto(LOSSY, m.kernels[j], A, AfterA);
  }

  lemma BSpreads(f: Facts, m: Automaton, j: int, k: int)
    requires FactsOk(f) && f.g == LOSSY && IsX(m, j)
    requires Trans(LOSSY, m, j, XTOK, j) && Trans(LOSSY, m, j, A, k)
    requires InClosure(LOSSY, m.kernels[j], AfterX) && InClosure(LOSSY, m.kernels[j], Long)
    ensures Spreads(f, m, k, AfterA, BTOK)
  {
    hide FactsOk, InClosure, Trans, SpreadsIn, PassesOn;
    LossyRules();
    Passed(f, {});
    SpreadWithin(f, m, j, AfterX, 1, BTOK);
    assert Moves(LOSSY, m, j, AfterX, j);
    SpreadAcross(f, m, j, AfterX, BTOK, j);
    assert Moves(LOSSY, m, j, AfterA, k);
    SpreadAcross(f, m, j, AfterA, BTOK, k);
  }
}

/** The same grammar with the alternatives of A in the other order, S: A;  A: | x A B;  B: b;
    loses nothing: the reduction is noted before the goto on x raises the mark. */
module KeptLookahead {
  import opened Grammars
  import opened Items
  import opened WorkingSets
  import opened Propagation

  const XTOK := 4
  const BTOK := 5
  const A := NTBASE + 1
  const B := NTBASE + 2

  /** $accept: A $end;  A: ;  A: x A B;  B: b; */
  const SWAPPED := Grammar([[NTBASE, A, ENDTOK, 0], [A, -1], [A, XTOK, A, B, -2], [B, BTOK, -3]], 5, 2)

  lemma SwappedRules()
    ensures WellFormed(SWAPPED) && forall r :: 0 <= r < 4 ==> HasRule(SWAPPED, r)
    ensures Rhs(SWAPPED, 0) == [A, ENDTOK] && Rhs(SWAPPED, 1) == [] && Rhs(SWAPPED, 2) == [XTOK, A, B]
    ensures Rhs(SWAPPED, 3) == [BTOK]
    ensures Lhs(SWAPPED, 0) == NTBASE && Lhs(SWAPPED, 1) == Lhs(SWAPPED, 2) == A && Lhs(SWAPPED, 3) == B
  {
    forall r: nat | 1 <= r < |SWAPPED.prods|
      ensures WellFormedRule(SWAPPED, r)
    {
      assert r == 1 || r == 2 || r == 3;
    }
  }

  lemma ItemsAt(it: Lr0)
    requires ValidItem(SWAPPED, it)
    ensures it.dot > 0 ==> it in {Lr0(0, 1), Lr0(0, 2), Lr0(2, 1), Lr0(2, 2), Lr0(2, 3), Lr0(3, 1)}
    ensures it.dot == 0 && Next(SWAPPED, it) <= ENDTOK ==> it == Lr0(1, 0)
    ensures Next(SWAPPED, it) == XTOK ==> it == Lr0(2, 0)
    ensures it.dot > 0 ==> ValidItem(SWAPPED, Back(it))
  {
    SwappedRules();
    assert it.rule == 0 || it.rule == 1 || it.rule == 2 || it.rule == 3;
  }

  lemma Advanced(kernel: set<Lr0>, it: Lr0)
    requires InClosure(SWAPPED, kernel, it) && it.dot > 0
    ensures it in kernel
  {
  }

  /** Every symbol before the dot of such an item is x. */
  lemma SelfBack(kernel: set<Lr0>, x: int, it: Lr0)
    requires IsGoto(SWAPPED, kernel, x, kernel) && it in kernel
    ensures it.dot > 0 && ValidItem(SWAPPED, it) && ValidItem(SWAPPED, Back(it)) && InClosure(SWAPPED, kernel, Back(it))
    ensures Next(SWAPPED, Back(it)) == x
    ensures it.dot > 1 ==> ValidItem(SWAPPED, Back(Back(it))) && Next(SWAPPED, Back(Back(it))) == x
  {
    hide InClosure;
    assert InGoto(SWAPPED, kernel, x, it);
    if it.dot > 1 {
      Advanced(kernel, Back(it));
      assert InGoto(SWAPPED, kernel, x, Back(it));
    }
  }

  lemma NoStart(kernel: set<Lr0>, x: int)
    requires IsGoto(SWAPPED, kernel, x, kernel)
    ensures !InClosure(SWAPPED, kernel, Lr0(0, 0))
  {
    SwappedRules();
    forall k | k in kernel
      ensures k.dot > 0
    {
      SelfBack(kernel, x, k);
    }
    forall k, n: nat | k in kernel && ValidItem(SWAPPED, k) && Next(SWAPPED, k) >= NTBASE
      ensures !Corner(SWAPPED, Next(SWAPPED, k), NTBASE, n)
    {
      AcceptNotCorner(SWAPPED, k, n);
    }
  }

  lemma NoB(kernel: set<Lr0>)
    requires IsGoto(SWAPPED, kernel, BTOK, kernel)
    ensures !InClosure(SWAPPED, kernel, Lr0(3, 0))
  {
    SwappedRules();
    forall k | k in kernel
      ensures k == Lr0(3, 1)
    {
      SelfBack(kernel, BTOK, k);
      ItemsAt(k);
    }
  }

  /** A state that has a goto to itself is the one after x. */
  lemma OnlyOnX(m: Automaton, i: int, x: int, it: Lr0)
    requires Trans(SWAPPED, m, i, x, i) && it in m.kernels[i]
    ensures it == Lr0(2, 1) && x == XTOK
  {
    hide InClosure, IsGoto;
    SwappedRules();
    SelfBack(m.kernels[i], x, it);
    ItemsAt(it);
    NoStart(m.kernels[i], x);
    if x == BTOK {
      NoB(m.kernels[i]);
    }
  }

  /** So no state of the grammar may lose a mark. */
  lemma NothingLost(m: Automaton)
    requires KernelsOk(SWAPPED, m)
    ensures NoneMayLose(SWAPPED, m)
  {
    hide Trans, InClosure;
    SwappedRules();
    forall i, x, e | 0 <= i < |m.kernels| && Trans(SWAPPED, m, i, x, i) && AddedLow(SWAPPED, m.kernels[i], e)
      ensures AddedBefore(SWAPPED, m.kernels[i], e, x)
    {
      var kernel := m.kernels[i];
      assert KernelOk(SWAPPED, kernel);
      var it :| it in kernel;
      OnlyOnX(m, i, x, it);
      assert e.dot == 0 by {
        if e.dot > 0 {
          Advanced(kernel, e);
        }
      }
      ItemsAt(e);
      forall y | InClosure(SWAPPED, kernel, y) && ValidItem(SWAPPED, y) && Next(SWAPPED, y) == x
        ensures y !in kernel && SameLeft(SWAPPED, e.rule, y.rule) && e.rule < y.rule
      {
        ItemsAt(y);
        if y in kernel {
          OnlyOnX(m, i, x, y);
        }
      }
    }
  }
}
