/** Which lookaheads a run of stagen ends with (cmd/goyacc/yacc.go): those that spread through the
    automaton, and all of them, unless a state that has a goto to itself is marked as needing
    lookaheads after that goto has raised its mark. */
module Propagation {
  import opened Grammars
  import opened Items
  import opened Lookaheads
  import opened WorkingSets
  import opened KernelStore
  import opened Collecting
  import opened Rounds

  // ------------------------------------------------------------------ spreading

  /** t begins what stands behind the symbol that introduces the item. */
  ghost predicate Starts(f: Facts, m: Automaton, i: int, it: Lr0, t: nat)
    requires 0 <= i < |m.kernels|
  {
    it.dot == 0 && exists p :: InClosure(f.g, m.kernels[i], p) && Introduces(f.g, p, it.rule) && t in PassesOn(f, p, {})
  }

  /** In at most n steps t spreads to the item of state i: from the item that introduces it, when
      what stands behind can vanish, or from the item before it over a transition. */
  ghost predicate SpreadsIn(f: Facts, m: Automaton, i: int, it: Lr0, t: nat, n: nat)
    decreases n
  {
    && 0 <= i < |m.kernels| && InClosure(f.g, m.kernels[i], it)
    && (|| Starts(f, m, i, it, t)
        || (n > 0 && it.dot == 0 && exists p :: Hands(f, p, it.rule, t) && SpreadsIn(f, m, i, p, t, n - 1))
        || (n > 0 && it.dot > 0 && exists h :: Moves(f.g, m, h, it, i) && SpreadsIn(f, m, h, Back(it), t, n - 1)))
  }

  ghost predicate Hands(f: Facts, p: Lr0, r: nat, t: nat) {
    Introduces(f.g, p, r) && t in PassesOn(f, p, {t})
  }

  function Back(it: Lr0): Lr0
    requires it.dot > 0
  {
    Lr0(it.rule, it.dot - 1)
  }

  ghost predicate Moves(g: Grammar, m: Automaton, h: int, it: Lr0, i: int)
    requires it.dot > 0
  {
    ValidItem(g, it) && Trans(g, m, h, Next(g, Back(it)), i)
  }

  ghost predicate Spreads(f: Facts, m: Automaton, i: int, it: Lr0, t: nat) {
    exists n: nat :: SpreadsIn(f, m, i, it, t, n)
  }

  /** A lookahead that comes out of the walk over the rest begins it, or has gone through it. */
  lemma {:induction false} RestLookSplit(f: Facts, rest: seq<int>, la: set<nat>, t: nat)
    ensures t in RestLook(f, rest, la) <==> t in RestLook(f, rest, {}) || (t in la && t in RestLook(f, rest, {t}))
  {
    if rest != [] {
      RestLookSplit(f, rest[1..], la, t);
    }
  }

  lemma PassesSplit(f: Facts, it: Lr0, la: set<nat>, t: nat)
    ensures t in PassesOn(f, it, la) <==> t in PassesOn(f, it, {}) || (t in la && t in PassesOn(f, it, {t}))
  {
    if ValidItem(f.g, it) && it.dot < |Rhs(f.g, it.rule)| {
      RestLookSplit(f, RestOf(f.g, it), la, t);
    }
  }

  lemma PassesBounded(f: Facts, it: Lr0, la: set<nat>)
    requires Sized(f) && forall t :: t in la ==> t <= f.g.ntokens
    ensures forall t :: t in PassesOn(f, it, la) ==> t <= f.g.ntokens
  {
    if ValidItem(f.g, it) && it.dot < |Rhs(f.g, it.rule)| {
      RuleShape(f.g, it.rule);
      forall s | s in RestOf(f.g, it)
        ensures IsToken(f.g, s) || IsNonter(f.g, s)
      {
        assert s in Rhs(f.g, it.rule);
      }
      RestLookTokens(f, RestOf(f.g, it), la);
    }
  }

  lemma SpreadWithin(f: Facts, m: Automaton, i: int, p: Lr0, r: nat, t: nat)
    requires 0 <= i < |m.kernels| && InClosure(f.g, m.kernels[i], p) && Introduces(f.g, p, r)
    requires t in PassesOn(f, p, {}) || (t in PassesOn(f, p, {t}) && Spreads(f, m, i, p, t))
    ensures Spreads(f, m, i, Lr0(r, 0), t)
  {
    hide InClosure, PassesOn, Introduces;
    ClosedUnderIntroduction(f.g, m.kernels[i], p, r);
    if t in PassesOn(f, p, {}) {
      assert Starts(f, m, i, Lr0(r, 0), t);
      assert SpreadsIn(f, m, i, Lr0(r, 0), t, 0);
    } else {
      var n: nat :| SpreadsIn(f, m, i, p, t, n);
      assert Hands(f, p, r, t);
      assert SpreadsIn(f, m, i, Lr0(r, 0), t, n + 1);
    }
  }

  lemma ClosedUnderIntroduction(g: Grammar, kernel: set<Lr0>, p: Lr0, r: nat)
    requires InClosure(g, kernel, p) && Introduces(g, p, r)
    ensures InClosure(g, kernel, Lr0(r, 0)) && ValidItem(g, Lr0(r, 0))
  {
    ClosureStep(g, kernel, p, r);
  }

  lemma SpreadAcross(f: Facts, m: Automaton, h: int, it: Lr0, t: nat, i: int)
    requires it.dot > 0 && Moves(f.g, m, h, it, i) && Spreads(f, m, h, Back(it), t)
    ensures Spreads(f, m, i, it, t)
  {
    var n: nat :| SpreadsIn(f, m, h, Back(it), t, n);
    assert InGoto(f.g, m.kernels[h], Next(f.g, Back(it)), it);
    assert SpreadsIn(f, m, i, it, t, n + 1);
  }

  lemma {:induction false} SpreadExtends(f: Facts, m: Automaton, m': Automaton, i: int, it: Lr0, t: nat, n: nat)
    requires Extends(m, m') && SpreadsIn(f, m, i, it, t, n)
    ensures SpreadsIn(f, m', i, it, t, n)
    decreases n
  {
    hide InClosure, PassesOn, Introduces, Trans, Hands;
    assert m'.kernels[i] == m.kernels[i];
    if Starts(f, m, i, it, t) {
      assert Starts(f, m', i, it, t);
    } else if it.dot == 0 {
      var p :| Hands(f, p, it.rule, t) && SpreadsIn(f, m, i, p, t, n - 1);
      SpreadExtends(f, m, m', i, p, t, n - 1);
    } else {
      var h :| Moves(f.g, m, h, it, i) && SpreadsIn(f, m, h, Back(it), t, n - 1);
      TransExtends(f.g, m, m', h, Next(f.g, Back(it)), i);
      assert Moves(f.g, m', h, it, i);
      SpreadExtends(f, m, m', h, Back(it), t, n - 1);
    }
  }

  // ------------------------------------------------------------------ nothing else spreads

  ghost predicate AllSpread(f: Facts, s: Snap) {
    forall i, it, t :: 0 <= i < |s.m.kernels| && t in Look(s, i, it) ==> Spreads(f, s.m, i, it, t)
  }

  ghost function SpreadSet(f: Facts, m: Automaton, i: int, it: Lr0): set<nat> {
    set t: nat | t in UpTo(f.g.ntokens) && Spreads(f, m, i, it, t)
  }

  ghost function SpreadMap(f: Facts, m: Automaton, i: int): LookMap
    requires 0 <= i < |m.kernels|
  {
    map it | it in AllItems(f.g) && ValidItem(f.g, it) && InClosure(f.g, m.kernels[i], it) :: SpreadSet(f, m, i, it)
  }

  lemma SpreadMapClosed(f: Facts, m: Automaton, i: int)
    requires Sized(f) && 0 <= i < |m.kernels|
    ensures ClosedMap(f, SpreadMap(f, m, i))
  {
    hide InClosure, Spreads, PassesOn;
    var mp := SpreadMap(f, m, i);
    forall it, r: nat | it in mp && Introduces(f.g, it, r)
      ensures Lr0(r, 0) in mp && PassesOn(f, it, mp[it]) <= mp[Lr0(r, 0)]
    {
      ClosedUnderIntroduction(f.g, m.kernels[i], it, r);
      assert Lr0(r, 0) in AllItems(f.g);
      PassesBounded(f, it, mp[it]);
      forall t | t in PassesOn(f, it, mp[it])
        ensures t in mp[Lr0(r, 0)]
      {
        PassesSplit(f, it, mp[it], t);
        SpreadWithin(f, m, i, it, r, t);
      }
    }
  }

  ghost predicate EntriesSpread(f: Facts, m: Automaton, i: int, ws: seq<Wset>) {
    forall k, t :: 0 <= k < |ws| && t in ws[k].ws ==> Spreads(f, m, i, ItemOf(ws[k].pitem), t)
  }

  /** closure only spreads lookaheads. */
  lemma ClosureSpreads(f: Facts, m: Automaton, i: int, kernel: seq<Item>, ws: seq<Wset>)
    requires ClosureDone(f, false, kernel, ws) && 0 <= i < |m.kernels| && KernelMatches(f.g, kernel, m.kernels[i])
    requires forall it, t :: t in KernLook(kernel, it) ==> Spreads(f, m, i, it, t)
    ensures EntriesSpread(f, m, i, ws)
  {
    hide Spreads, InClosure;
    var mp := SpreadMap(f, m, i);
    SpreadMapClosed(f, m, i);
    forall k | 0 <= k < |kernel|
      ensures ItemOf(kernel[k].pitem) in mp && kernel[k].look <= mp[ItemOf(kernel[k].pitem)]
    {
      var it := ItemOf(kernel[k].pitem);
      assert PitemOk(f.g, kernel[k].pitem);
      assert it in KernelSet(kernel) && it in AllItems(f.g);
      KernelInClosure(f.g, m.kernels[i], it);
      KernLookAt(f.g, kernel, k);
    }
    assert Below(ws, mp);
  }

  lemma KernelInClosure(g: Grammar, kernel: set<Lr0>, it: Lr0)
    requires it in kernel
    ensures InClosure(g, kernel, it)
  {
  }

  lemma GotoSpreads(f: Facts, s: Snap, i: int, c: int, ws: seq<Wset>, j: int, s': Snap)
    requires WellFormed(f.g) && AllSpread(f, s) && EntriesSpread(f, s.m, i, ws) && EntriesOk(f.g, ws)
    requires c > ENDTOK && GotoStep(f.g, s, i, c, Picked(ws, c, |ws|), j, s')
    ensures AllSpread(f, s') && EntriesSpread(f, s'.m, i, ws)
  {
    hide SpreadsIn, Trans, Picked, KernAt, PitemOk, WellFormed;
    var n, picked := |s.m.kernels|, Picked(ws, c, |ws|);
    forall k, it, t | SpreadsHere(f, s.m, k, it, t)
      ensures Spreads(f, s'.m, k, it, t)
    {
      var x: nat :| SpreadsIn(f, s.m, k, it, t, x);
      SpreadExtends(f, s.m, s'.m, k, it, t, x);
    }
    forall k, it, t | 0 <= k < |s'.m.kernels| && t in Look(s', k, it)
      ensures Spreads(f, s'.m, k, it, t)
    {
      if k < n && t in Look(s, k, it) {
        assert SpreadsHere(f, s.m, k, it, t);
      } else {
        assert k == j && t in KernLook(picked, it);
        PickedSpreads(f, s'.m, i, ws, c, j, it, t);
      }
    }
  }

  ghost predicate SpreadsHere(f: Facts, m: Automaton, i: int, it: Lr0, t: nat) {
    Spreads(f, m, i, it, t)
  }

  ghost predicate EntriesOk(g: Grammar, ws: seq<Wset>) {
    forall k :: 0 <= k < |ws| ==> PitemOk(g, ws[k].pitem)
  }

  /** A lookahead picked for an item comes from the entry of the item before it. */
  lemma {:induction false} PickedOrigin(g: Grammar, ws: seq<Wset>, c: int, it: Lr0, t: nat) returns (k: nat)
    requires WellFormed(g) && EntriesOk(g, ws) && c > 0 && t in KernLook(Picked(ws, c, |ws|), it)
    ensures k < |ws| && it.dot > 0 && ItemOf(ws[k].pitem) == Back(it) && t in ws[k].ws
    ensures ValidItem(g, it) && Next(g, Back(it)) == c
  {
    hide Picked, WellFormed;
    var picked := Picked(ws, c, |ws|);
    var src := PickedSources(g, ws, c, |ws|);
    var x :| 0 <= x < |picked| && ItemOf(picked[x].pitem) == it && t in picked[x].look;
    k := src[x];
    assert Moved(g, ws[k], picked[x], c);
    PitemShape(g, ws[k].pitem);
  }

  lemma {:induction false} PickedSpreads(f: Facts, m: Automaton, i: int, ws: seq<Wset>, c: int, j: int, it: Lr0, t: nat)
    requires WellFormed(f.g) && EntriesOk(f.g, ws) && EntriesSpread(f, m, i, ws) && c > 0
    requires Trans(f.g, m, i, c, j) && t in KernLook(Picked(ws, c, |ws|), it)
    ensures Spreads(f, m, j, it, t)
  {
    hide Spreads, Trans, Picked, WellFormed, EntriesOk;
    var k := PickedOrigin(f.g, ws, c, it, t);
    SpreadAcross(f, m, i, it, t, j);
  }

  lemma {:induction false} SweepSpreads(f: Facts, i: int, base: nat, ws: seq<Wset>, p: nat, s: Snap, s': Snap)
    requires WellFormed(f.g) && p <= |ws| && Swept(f.g, i, base, ws, p, s, s')
    requires AllSpread(f, s) && EntriesSpread(f, s.m, i, ws) && EntriesOk(f.g, ws)
    ensures AllSpread(f, s') && EntriesSpread(f, s'.m, i, ws)
    decreases p
  {
    hide GotoStep, EntriesSpread, EntriesOk, Spreads, WellFormed, Picked;
    if p > 0 {
      var t :| Swept(f.g, i, base, ws, p - 1, s, t) && EntryStep(f.g, i, base, ws, p - 1, t, s');
      SweepSpreads(f, i, base, ws, p - 1, s, t);
      var c := ws[p - 1].pitem.first;
      if c > ENDTOK && !SeenSymbol(ws, c, p - 1) {
        var j :| GotoStep(f.g, t, i, c, Picked(ws, c, |ws|), j, s');
        GotoSpreads(f, t, i, c, ws, j, s');
      } else {
        assert s'.m == t.m && s'.sm == t.sm && s'.ps == t.ps;
        assert forall k, it :: Look(s', k, it) == Look(t, k, it);
      }
    }
  }

  lemma ClosureEntriesOk(f: Facts, kernel: seq<Item>, ws: seq<Wset>)
    requires ClosureDone(f, false, kernel, ws)
    ensures WellFormed(f.g) && Sized(f) && EntriesOk(f.g, ws)
  {
  }

  lemma RoundSpreads(f: Facts, s: Snap, i: int, s': Snap)
    requires AllSpread(f, s) && Round(f, s, i, s')
    ensures AllSpread(f, s')
  {
    hide Swept, ClosureDone, Spreads, AllSpread, KernelMatches, Apart;
    var ws :| RoundWith(f, s, i, ws, s');
    var kernel := KernAt(s.sm, s.ps, i);
    MatchesAt(f.g, s.sm, s.ps, s.m.kernels, i);
    KernelSpread(f, s, i);
    ClosureSpreads(f, s.m, i, kernel, ws);
    ClosureEntriesOk(f, kernel, ws);
    SpreadSame(f, s, Begun(s, i));
    SweepSpreads(f, i, |kernel|, ws, |ws|, Begun(s, i), s');
  }

  lemma KernelSpread(f: Facts, s: Snap, i: int)
    requires AllSpread(f, s) && 0 <= i < |s.m.kernels|
    ensures forall it, t :: t in KernLook(KernAt(s.sm, s.ps, i), it) ==> Spreads(f, s.m, i, it, t)
  {
    hide Spreads;
    assert forall it :: Look(s, i, it) == KernLook(KernAt(s.sm, s.ps, i), it);
  }

  lemma SpreadSame(f: Facts, s: Snap, s': Snap)
    requires AllSpread(f, s) && s'.m == s.m && s'.sm == s.sm && s'.ps == s.ps
    ensures AllSpread(f, s')
  {
    hide Spreads;
    assert forall k, it :: Look(s', k, it) == Look(s, k, it);
  }

  lemma InitialSpread(f: Facts, s: Snap)
    requires Initial(f.g, s)
    ensures AllSpread(f, s)
  {
    hide Spreads, Look;
  }

  /** Every lookahead that a run of stagen stores has spread to its item. */
  lemma {:induction false} StoredHasSpread(f: Facts, s: Snap, n: nat)
    requires RunIn(f, s, n)
    ensures AllSpread(f, s)
    decreases n
  {
    hide Spreads, Round;
    if n == 0 {
      InitialSpread(f, s);
    } else {
      var t, i :| RunIn(f, t, n - 1) && Round(f, t, i, s);
      StoredHasSpread(f, t, n - 1);
      RoundSpreads(f, t, i, s);
    }
  }

  // ------------------------------------------------------------------ what is handed on

  ghost predicate HandedOn(g: Grammar, s: Snap, i: int, it: Lr0, la: set<nat>) {
    && ValidItem(g, it) && it.dot < |Rhs(g, it.rule)|
    && exists j :: Trans(g, s.m, i, Next(g, it), j) && la <= Look(s, j, Lr0(it.rule, it.dot + 1))
  }

  /** The LR(1) items mp include the kernel of state i, are closed, and have been handed on by its
      gotos. */
  ghost predicate PassedBy(f: Facts, s: Snap, i: int, mp: LookMap) {
    && 0 <= i < |s.m.kernels| && ClosedMap(f, mp)
    && (forall it :: it in s.m.kernels[i] ==> it in mp && Look(s, i, it) <= mp[it])
    && forall it :: it in mp && ValidItem(f.g, it) && Next(f.g, it) > ENDTOK ==> HandedOn(f.g, s, i, it, mp[it])
  }

  ghost predicate PassedOn(f: Facts, s: Snap, i: int) {
    exists mp :: PassedBy(f, s, i, mp)
  }

  /** closure adds the item, which has $end or a reduction after its dot. */
  ghost predicate AddedLow(g: Grammar, kernel: set<Lr0>, e: Lr0) {
    InClosure(g, kernel, e) && ValidItem(g, e) && e !in kernel && Next(g, e) <= ENDTOK
  }

  /** closure adds e before every item that has x after its dot: those are all added for later rules
      of the same nonterminal. */
  ghost predicate AddedBefore(g: Grammar, kernel: set<Lr0>, e: Lr0, x: int) {
    forall y :: InClosure(g, kernel, y) && ValidItem(g, y) && Next(g, y) == x ==>
      y !in kernel && SameLeft(g, e.rule, y.rule) && e.rule < y.rule
  }

  /** The state has a goto to itself on x, and closure adds a low item that need not come before the
      items that goto is made of: the mark that says that the lookaheads have grown may be
      overwritten. */
  ghost predicate LosesAt(g: Grammar, m: Automaton, i: int, x: int, e: Lr0) {
    Trans(g, m, i, x, i) && AddedLow(g, m.kernels[i], e) && !AddedBefore(g, m.kernels[i], e, x)
  }

  ghost predicate MayLose(g: Grammar, m: Automaton, i: int) {
    0 <= i < |m.kernels| && exists x, e :: LosesAt(g, m, i, x, e)
  }

  /** Every state, but one, that is not waiting has handed on what it has. */
  ghost predicate AllPassed(f: Facts, s: Snap, but: int) {
    forall i :: 0 <= i < |s.m.kernels| && i < |s.ty| && i != but && s.ty[i] != MUSTDO && !MayLose(f.g, s.m, i) ==>
      PassedOn(f, s, i)
  }

  ghost predicate Grows(s: Snap, s': Snap) {
    && Extends(s.m, s'.m)
    && forall k, it :: 0 <= k < |s.m.kernels| ==> Look(s, k, it) <= Look(s', k, it)
  }

  lemma GotoGrows(g: Grammar, s: Snap, i: int, c: int, picked: seq<Item>, j: int, s': Snap)
    requires GotoStep(g, s, i, c, picked, j, s')
    ensures Grows(s, s')
  {
    hide Trans, Extends, KernAt;
  }

  lemma HandedGrows(g: Grammar, s: Snap, s': Snap, i: int, it: Lr0, la: set<nat>)
    requires Grows(s, s') && HandedOn(g, s, i, it, la)
    ensures HandedOn(g, s', i, it, la)
  {
    hide Look;
    var j :| Trans(g, s.m, i, Next(g, it), j) && la <= Look(s, j, Lr0(it.rule, it.dot + 1));
    TransExtends(g, s.m, s'.m, i, Next(g, it), j);
  }

  /** What a state has handed on stays handed on while the state gains nothing. */
  lemma PassedGrows(f: Facts, s: Snap, s': Snap, i: int)
    requires Grows(s, s') && PassedOn(f, s, i) && forall it :: Look(s', i, it) == Look(s, i, it)
    ensures PassedOn(f, s', i)
  {
    hide Look, HandedOn, ClosedMap;
    var mp :| PassedBy(f, s, i, mp);
    forall it | it in mp && ValidItem(f.g, it) && Next(f.g, it) > ENDTOK
      ensures HandedOn(f.g, s', i, it, mp[it])
    {
      HandedGrows(f.g, s, s', i, it, mp[it]);
    }
    assert s'.m.kernels[i] == s.m.kernels[i];
    assert PassedBy(f, s', i, mp);
  }

  lemma MayLoseExtends(g: Grammar, m: Automaton, m': Automaton, i: int)
    requires Extends(m, m') && MayLose(g, m, i)
    ensures MayLose(g, m', i)
  {
    hide AddedLow, AddedBefore, Trans;
    var x, e :| LosesAt(g, m, i, x, e);
    TransExtends(g, m, m', i, x, i);
    assert m'.kernels[i] == m.kernels[i];
    assert LosesAt(g, m', i, x, e);
  }

  lemma GotoPassed(f: Facts, s: Snap, i: int, c: int, picked: seq<Item>, j: int, s': Snap)
    requires AllPassed(f, s, i) && |s.m.kernels| <= |s.ty| && GotoStep(f.g, s, i, c, picked, j, s')
    ensures AllPassed(f, s', i)
  {
    hide Trans, KernAt, KernLook, PassedOn, MayLose, Extends;
    GotoGrows(f.g, s, i, c, picked, j, s');
    forall k | 0 <= k < |s'.m.kernels| && k < |s'.ty| && k != i && s'.ty[k] != MUSTDO && !MayLose(f.g, s'.m, k)
      ensures PassedOn(f, s', k)
    {
      assert k < |s.m.kernels| && KernAt(s'.sm, s'.ps, k) == KernAt(s.sm, s.ps, k);
      assert forall it :: Look(s', k, it) == Look(s, k, it);
      if MayLose(f.g, s.m, k) {
        MayLoseExtends(f.g, s.m, s'.m, k);
      }
      PassedGrows(f, s, s', k);
    }
  }

  // ------------------------------------------------------------------ one round

  /** The entries whose symbol has been seen before p have been handed on. */
  ghost predicate Given(g: Grammar, s: Snap, i: int, ws: seq<Wset>, p: nat) {
    forall k :: 0 <= k < |ws| && ws[k].pitem.first > ENDTOK && SeenSymbol(ws, ws[k].pitem.first, p) ==>
      HandedOn(g, s, i, ItemOf(ws[k].pitem), ws[k].ws)
  }

  ghost predicate SameKern(s: Snap, s': Snap, i: int) {
    KernAt(s'.sm, s'.ps, i) == KernAt(s.sm, s.ps, i)
  }

  /** Entry q, one of the first p, has made state i go to itself. */
  ghost predicate WentToItself(g: Grammar, m: Automaton, i: int, ws: seq<Wset>, q: int, p: int) {
    0 <= q < p && q < |ws| && ws[q].pitem.first > ENDTOK && Trans(g, m, i, ws[q].pitem.first, i)
  }

  /** Entry r, low and added by closure, has come after entry q. */
  ghost predicate OverwrittenAt(g: Grammar, m: Automaton, i: int, base: nat, ws: seq<Wset>, q: int, r: int, p: int) {
    WentToItself(g, m, i, ws, q, r) && base <= r < p && r < |ws| && ws[r].pitem.first <= ENDTOK
  }

  ghost predicate Overwritten(g: Grammar, m: Automaton, i: int, base: nat, ws: seq<Wset>, p: int) {
    exists q, r :: OverwrittenAt(g, m, i, base, ws, q, r, p)
  }

  /** State i has gained nothing in this round, or it is marked, or its mark has been overwritten. */
  ghost predicate OwnKept(g: Grammar, s: Snap, s': Snap, i: int, base: nat, ws: seq<Wset>, p: nat) {
    && 0 <= i < |s.m.kernels| && Extends(s.m, s'.m) && |s'.ty| == |s.ty| == NSTATES && |s'.m.kernels| <= NSTATES
    && (SameKern(s, s', i) || exists q :: WentToItself(g, s'.m, i, ws, q, p))
    && (SameKern(s, s', i) || s'.ty[i] == MUSTDO || Overwritten(g, s'.m, i, base, ws, p))
  }

  /** What holds after p entries of the round that began at s. */
  ghost predicate Passing(f: Facts, s: Snap, i: int, base: nat, ws: seq<Wset>, p: nat, s': Snap) {
    AllPassed(f, s', i) && Given(f.g, s', i, ws, p) && OwnKept(f.g, s, s', i, base, ws, p)
  }

  lemma {:induction false} PickedHas(g: Grammar, ws: seq<Wset>, c: int, k: nat)
    requires WellFormed(g) && EntriesOk(g, ws) && c > 0 && k < |ws| && ws[k].pitem.first == c
    ensures var it := ItemOf(ws[k].pitem);
      && ValidItem(g, it) && it.dot < |Rhs(g, it.rule)| && Next(g, it) == c
      && ws[k].ws <= KernLook(Picked(ws, c, |ws|), Lr0(it.rule, it.dot + 1))
  {
    hide Picked, WellFormed;
    var picked := Picked(ws, c, |ws|);
    var src := PickedSources(g, ws, c, |ws|);
    assert k in src;
    var x :| 0 <= x < |src| && src[x] == k;
    assert Moved(g, ws[src[x]], picked[x], c);
    PitemShape(g, ws[k].pitem);
  }

  lemma {:induction false} GivenByGoto(f: Facts, s: Snap, i: int, c: int, ws: seq<Wset>, p: nat, j: int, s': Snap)
    requires WellFormed(f.g) && EntriesOk(f.g, ws) && p < |ws| && ws[p].pitem.first == c && c > ENDTOK
    requires Given(f.g, s, i, ws, p) && GotoStep(f.g, s, i, c, Picked(ws, c, |ws|), j, s')
    ensures Given(f.g, s', i, ws, p + 1)
  {
    hide Picked, WellFormed, KernAt, KernLook, Trans, Extends, EntriesOk;
    GotoGrows(f.g, s, i, c, Picked(ws, c, |ws|), j, s');
    forall k | 0 <= k < |ws| && ws[k].pitem.first > ENDTOK && SeenSymbol(ws, ws[k].pitem.first, p + 1)
      ensures HandedOn(f.g, s', i, ItemOf(ws[k].pitem), ws[k].ws)
    {
      if ws[k].pitem.first == c {
        PickedHas(f.g, ws, c, k);
        var it := ItemOf(ws[k].pitem);
        assert KernLook(Picked(ws, c, |ws|), Lr0(it.rule, it.dot + 1)) <= Look(s', j, Lr0(it.rule, it.dot + 1));
      } else {
        assert SeenSymbol(ws, ws[k].pitem.first, p);
        HandedGrows(f.g, s, s', i, ItemOf(ws[k].pitem), ws[k].ws);
      }
    }
  }

  lemma WentExtends(g: Grammar, m: Automaton, m': Automaton, i: int, base: nat, ws: seq<Wset>, p: nat)
    requires Extends(m, m')
    ensures forall q :: WentToItself(g, m, i, ws, q, p) ==> WentToItself(g, m', i, ws, q, p + 1)
    ensures Overwritten(g, m, i, base, ws, p) ==> Overwritten(g, m', i, base, ws, p + 1)
  {
    hide Trans, Extends;
    forall q, n: int | WentToItself(g, m, i, ws, q, n)
      ensures WentToItself(g, m', i, ws, q, n) && WentToItself(g, m', i, ws, q, n + 1)
    {
      TransExtends(g, m, m', i, ws[q].pitem.first, i);
    }
    if Overwritten(g, m, i, base, ws, p) {
      var q, r :| OverwrittenAt(g, m, i, base, ws, q, r, p);
      assert OverwrittenAt(g, m', i, base, ws, q, r, p + 1);
    }
  }

  lemma OwnKeptGoto(g: Grammar, s: Snap, t: Snap, i: int, base: nat, ws: seq<Wset>, p: nat, c: int, picked: seq<Item>,
                    j: int, s': Snap)
    requires OwnKept(g, s, t, i, base, ws, p) && GotoStep(g, t, i, c, picked, j, s')
    requires p < |ws| && ws[p].pitem.first == c && c > ENDTOK
    ensures OwnKept(g, s, s', i, base, ws, p + 1)
  {
    hide KernAt, IsGoto, WentToItself, Overwritten;
    WentExtends(g, t.m, s'.m, i, base, ws, p);
    if j == i {
      Arrived(g, s'.m, i, ws, p);
    }
    assert j != i ==> SameKern(t, s', i);
  }

  lemma Arrived(g: Grammar, m: Automaton, i: int, ws: seq<Wset>, p: nat)
    requires p < |ws| && ws[p].pitem.first > ENDTOK && Trans(g, m, i, ws[p].pitem.first, i)
    ensures WentToItself(g, m, i, ws, p, p + 1)
  {
  }

  lemma OwnKeptLow(g: Grammar, s: Snap, t: Snap, i: int, base: nat, ws: seq<Wset>, p: nat, s': Snap)
    requires OwnKept(g, s, t, i, base, ws, p) && p < |ws| && ws[p].pitem.first <= ENDTOK && LowStep(t, i, base, p, s')
    ensures OwnKept(g, s, s', i, base, ws, p + 1)
  {
    hide KernAt, WentToItself;
    WentExtends(g, t.m, s'.m, i, base, ws, p);
    assert SameKern(t, s', i);
    if !SameKern(s, t, i) && base <= p {
      var q :| WentToItself(g, t.m, i, ws, q, p);
      assert OverwrittenAt(g, s'.m, i, base, ws, q, p, p + 1);
    }
  }

  /** $end or a reduction after the dot: the mark may be overwritten. */
  lemma PassingLow(f: Facts, s: Snap, i: int, base: nat, ws: seq<Wset>, p: nat, t: Snap, s': Snap)
    requires 0 <= i < |s.m.kernels|
    requires Passing(f, s, i, base, ws, p, t) && p < |ws| && ws[p].pitem.first <= ENDTOK && LowStep(t, i, base, p, s')
    ensures Passing(f, s, i, base, ws, p + 1, s')
  {
    hide PassedOn, MayLose, HandedOn, WentToItself, Overwritten, Extends, KernAt, KernLook;
    assert Grows(t, s') by {
      assert Extends(t.m, t.m) by {
        SameExtends(s.m, t.m);
      }
      assert forall k, it :: Look(s', k, it) == Look(t, k, it);
    }
    LowPassed(f, t, i, s');
    LowGiven(f.g, t, i, ws, p, s');
    OwnKeptLow(f.g, s, t, i, base, ws, p, s');
  }

  lemma SameExtends(m: Automaton, m': Automaton)
    requires Extends(m, m')
    ensures Extends(m', m')
  {
  }

  lemma LowPassed(f: Facts, s: Snap, i: int, s': Snap)
    requires AllPassed(f, s, i) && Grows(s, s') && s'.m == s.m && s'.sm == s.sm && s'.ps == s.ps
    requires |s'.ty| == |s.ty| && forall k :: 0 <= k < |s.ty| && k != i ==> s'.ty[k] == s.ty[k]
    ensures AllPassed(f, s', i)
  {
    hide PassedOn, MayLose, KernAt, KernLook, Grows;
    forall k | 0 <= k < |s'.m.kernels| && k < |s'.ty| && k != i && s'.ty[k] != MUSTDO && !MayLose(f.g, s'.m, k)
      ensures PassedOn(f, s', k)
    {
      assert forall it :: Look(s', k, it) == Look(s, k, it);
      PassedGrows(f, s, s', k);
    }
  }

  lemma LowGiven(g: Grammar, s: Snap, i: int, ws: seq<Wset>, p: nat, s': Snap)
    requires Given(g, s, i, ws, p) && Grows(s, s') && p < |ws|
    requires ws[p].pitem.first <= ENDTOK || SeenSymbol(ws, ws[p].pitem.first, p)
    ensures Given(g, s', i, ws, p + 1)
  {
    hide Grows, HandedOn;
    forall k | 0 <= k < |ws| && ws[k].pitem.first > ENDTOK && SeenSymbol(ws, ws[k].pitem.first, p + 1)
      ensures HandedOn(g, s', i, ItemOf(ws[k].pitem), ws[k].ws)
    {
      assert SeenSymbol(ws, ws[k].pitem.first, p);
      HandedGrows(g, s, s', i, ItemOf(ws[k].pitem), ws[k].ws);
    }
  }

  /** A low entry that closure has added. */
  lemma {:induction false} LowEntry(f: Facts, kernels: set<Lr0>, kernel: seq<Item>, ws: seq<Wset>, p: nat)
    requires ClosureDone(f, false, kernel, ws) && KernelMatches(f.g, kernel, kernels)
    requires |kernel| <= p < |ws| && ws[p].pitem.first <= ENDTOK
    ensures AddedLow(f.g, kernels, ItemOf(ws[p].pitem)) && ItemOf(ws[p].pitem).dot == 0
  {
    var it := ItemOf(ws[p].pitem);
    assert PitemOk(f.g, ws[p].pitem);
    PitemShape(f.g, ws[p].pitem);
    ClosureItems(f, false, kernel, ws, it);
    assert HasItem(ws, it);
    forall k | 0 <= k < |kernel|
      ensures ItemOf(kernel[k].pitem) != it
    {
      assert ws[k].pitem == kernel[k].pitem;
    }
  }

  /** An entry after it is not one of those that closure adds later. */
  lemma {:induction false} LowEntryAfter(f: Facts, kernels: set<Lr0>, kernel: seq<Item>, ws: seq<Wset>, q: nat, p: nat)
    requires ClosureDone(f, false, kernel, ws) && KernelMatches(f.g, kernel, kernels)
    requires q < p < |ws| && ItemOf(ws[p].pitem).dot == 0
    ensures !AddedBefore(f.g, kernels, ItemOf(ws[p].pitem), ws[q].pitem.first)
  {
    hide InClosure, KernelSet, RulesInOrder;
    var e, y := ItemOf(ws[p].pitem), ItemOf(ws[q].pitem);
    assert PitemOk(f.g, ws[q].pitem);
    PitemShape(f.g, ws[q].pitem);
    ClosureItems(f, false, kernel, ws, y);
    assert HasItem(ws, y);
    if q < |kernel| {
      InKernelSet(kernel, q);
      assert ws[q].pitem == kernel[q].pitem;
    } else if SameLeft(f.g, e.rule, y.rule) && e.rule < y.rule {
      var v := EarlierEntry(f, kernel, ws, q, e.rule);
    }
  }

  lemma InKernelSet(kernel: seq<Item>, k: nat)
    requires k < |kernel|
    ensures ItemOf(kernel[k].pitem) in KernelSet(kernel)
  {
  }

  lemma EarlierEntry(f: Facts, kernel: seq<Item>, ws: seq<Wset>, q: nat, r: nat) returns (v: nat)
    requires ClosureDone(f, false, kernel, ws) && |kernel| <= q < |ws| && r < ItemOf(ws[q].pitem).rule
    requires SameLeft(f.g, r, ItemOf(ws[q].pitem).rule)
    ensures v < q && ItemOf(ws[v].pitem) == Lr0(r, 0)
  {
    hide Inv, Done;
    assert EarlierIn(ws, q, Lr0(r, 0));
    v :| 0 <= v < q && ItemOf(ws[v].pitem) == Lr0(r, 0);
  }

  lemma OverwrittenLoses(f: Facts, m: Automaton, i: int, kernel: seq<Item>, ws: seq<Wset>)
    requires 0 <= i < |m.kernels| && ClosureDone(f, false, kernel, ws) && KernelMatches(f.g, kernel, m.kernels[i])
    requires Overwritten(f.g, m, i, |kernel|, ws, |ws|)
    ensures MayLose(f.g, m, i)
  {
    hide ClosureDone, KernelMatches, Trans, AddedLow, AddedBefore;
    var q, r :| OverwrittenAt(f.g, m, i, |kernel|, ws, q, r, |ws|);
    LowEntry(f, m.kernels[i], kernel, ws, r);
    LowEntryAfter(f, m.kernels[i], kernel, ws, q, r);
    assert LosesAt(f.g, m, i, ws[q].pitem.first, ItemOf(ws[r].pitem));
  }

  lemma {:induction false} SweepPasses(f: Facts, s: Snap, i: int, kernel: seq<Item>, ws: seq<Wset>, p: nat, s': Snap)
    requires ClosureDone(f, false, kernel, ws) && 0 <= i < |s.m.kernels| && KernelMatches(f.g, kernel, s.m.kernels[i])
    requires p <= |ws| && Swept(f.g, i, |kernel|, ws, p, s, s')
    requires Passing(f, s, i, |kernel|, ws, 0, s)
    ensures Passing(f, s, i, |kernel|, ws, p, s')
    decreases p
  {
    hide ClosureDone, GotoStep, AllPassed, Given, OwnKept, Picked, LowStep, KernelMatches;
    if p > 0 {
      var c := ws[p - 1].pitem.first;
      var t :| Swept(f.g, i, |kernel|, ws, p - 1, s, t) && EntryStep(f.g, i, |kernel|, ws, p - 1, t, s');
      SweepPasses(f, s, i, kernel, ws, p - 1, t);
      if c <= ENDTOK {
        PassingLow(f, s, i, |kernel|, ws, p - 1, t, s');
      } else if SeenSymbol(ws, c, p - 1) {
        PassingSeen(f, s, i, |kernel|, ws, p - 1, t);
      } else {
        var j :| GotoStep(f.g, t, i, c, Picked(ws, c, |ws|), j, s');
        ClosureEntriesOk(f, kernel, ws);
        OwnKeptBounds(f.g, s, t, i, |kernel|, ws, p - 1);
        GotoPassed(f, t, i, c, Picked(ws, c, |ws|), j, s');
        GivenByGoto(f, t, i, c, ws, p - 1, j, s');
        OwnKeptGoto(f.g, s, t, i, |kernel|, ws, p - 1, c, Picked(ws, c, |ws|), j, s');
      }
    }
  }

  lemma OwnKeptBounds(g: Grammar, s: Snap, t: Snap, i: int, base: nat, ws: seq<Wset>, p: nat)
    requires OwnKept(g, s, t, i, base, ws, p)
    ensures |t.m.kernels| <= |t.ty| && Extends(s.m, t.m)
  {
  }

  lemma PassingSeen(f: Facts, s: Snap, i: int, base: nat, ws: seq<Wset>, p: nat, t: Snap)
    requires Passing(f, s, i, base, ws, p, t) && p < |ws| && SeenSymbol(ws, ws[p].pitem.first, p)
    ensures Passing(f, s, i, base, ws, p + 1, t)
  {
    hide AllPassed, HandedOn, Extends, KernAt, WentToItself, Overwritten;
    OwnKeptBounds(f.g, s, t, i, base, ws, p);
    assert Grows(t, t) by {
      SameExtends(s.m, t.m);
    }
    LowGiven(f.g, t, i, ws, p, t);
    SameExtends(s.m, t.m);
    WentExtends(f.g, t.m, t.m, i, base, ws, p);
  }

  /** In a full round a state that is not marked again and cannot have lost its mark gains nothing. */
  lemma OwnSame(f: Facts, s: Snap, i: int, ws: seq<Wset>, s': Snap)
    requires Proper(f.g, s) && 0 <= i < |s.m.kernels| && ClosureDone(f, false, KernAt(s.sm, s.ps, i), ws)
    requires OwnKept(f.g, s, s', i, |KernAt(s.sm, s.ps, i)|, ws, |ws|)
    requires s'.ty[i] != MUSTDO && !MayLose(f.g, s'.m, i)
    ensures i < |s'.m.kernels| && s'.m.kernels[i] == s.m.kernels[i] && SameKern(s, s', i)
    ensures KernelMatches(f.g, KernAt(s.sm, s.ps, i), s.m.kernels[i])
  {
    hide KernAt, Apart, MayLose, Overwritten, WentToItself, ClosureDone, KernelMatches;
    MatchesAt(f.g, s.sm, s.ps, s.m.kernels, i);
    if Overwritten(f.g, s'.m, i, |KernAt(s.sm, s.ps, i)|, ws, |ws|) {
      OverwrittenLoses(f, s'.m, i, KernAt(s.sm, s.ps, i), ws);
    }
  }

  /** So it has handed on its closure. */
  lemma {:induction false} OwnPassed(f: Facts, s: Snap, i: int, ws: seq<Wset>, s': Snap)
    requires 0 <= i < |s.m.kernels| && ClosureDone(f, false, KernAt(s.sm, s.ps, i), ws)
    requires i < |s'.m.kernels| && s'.m.kernels[i] == s.m.kernels[i] && SameKern(s, s', i)
    requires KernelMatches(f.g, KernAt(s.sm, s.ps, i), s.m.kernels[i]) && Given(f.g, s', i, ws, |ws|)
    ensures PassedOn(f, s', i)
  {
    hide KernAt, HandedOn, ClosedMap, PassesOn;
    var kernel, mp := KernAt(s.sm, s.ps, i), MapOf(ws);
    ClosureIsLeast(f, kernel, ws);
    forall it | it in s'.m.kernels[i]
      ensures it in mp && Look(s', i, it) <= mp[it]
    {
      var k :| 0 <= k < |kernel| && ItemOf(kernel[k].pitem) == it;
      KernLookAt(f.g, kernel, k);
    }
    forall it | it in mp && ValidItem(f.g, it) && Next(f.g, it) > ENDTOK
      ensures HandedOn(f.g, s', i, it, mp[it])
    {
      var k :| 0 <= k < |ws| && ItemOf(ws[k].pitem) == it;
      MapOfAt(f, kernel, ws, k);
      EntryFirst(f, kernel, ws, k);
      assert SeenSymbol(ws, ws[k].pitem.first, |ws|);
    }
    assert PassedBy(f, s', i, mp);
  }

  lemma {:induction false} EntryFirst(f: Facts, kernel: seq<Item>, ws: seq<Wset>, k: nat)
    requires ClosureDone(f, false, kernel, ws) && k < |ws|
    ensures PitemOk(f.g, ws[k].pitem) && ws[k].pitem.first == Next(f.g, ItemOf(ws[k].pitem))
  {
    PitemShape(f.g, ws[k].pitem);
  }

  lemma {:induction false} RoundPasses(f: Facts, s: Snap, i: int, s': Snap)
    requires AllPassed(f, s, -1) && Round(f, s, i, s')
    ensures AllPassed(f, s', -1)
  {
    hide Swept, ClosureDone, PassedOn, MayLose, KernelMatches, Apart, Given, OwnKept, KernAt;
    var ws :| RoundWith(f, s, i, ws, s');
    var kernel := KernAt(s.sm, s.ps, i);
    MatchesAt(f.g, s.sm, s.ps, s.m.kernels, i);
    RoundStart(f, s, i, ws);
    SweepPasses(f, Begun(s, i), i, kernel, ws, |ws|, s');
    forall k | 0 <= k < |s'.m.kernels| && k < |s'.ty| && s'.ty[k] != MUSTDO && !MayLose(f.g, s'.m, k)
      ensures PassedOn(f, s', k)
    {
      if k == i {
        OwnSame(f, Begun(s, i), i, ws, s');
        OwnPassed(f, Begun(s, i), i, ws, s');
      }
    }
  }

  lemma {:induction false} RoundStart(f: Facts, s: Snap, i: int, ws: seq<Wset>)
    requires AllPassed(f, s, -1) && Proper(f.g, s) && 0 <= i < |s.m.kernels|
    ensures Passing(f, Begun(s, i), i, |KernAt(s.sm, s.ps, i)|, ws, 0, Begun(s, i)) && Proper(f.g, Begun(s, i))
  {
    hide PassedOn, MayLose, KernAt, HandedOn, WentToItself, Overwritten, Look, Apart, KernelsMatch, HasPredecessor;
    var s' := Begun(s, i);
    assert Extends(s.m, s.m);
    assert Grows(s, s') by {
      assert forall k, it :: Look(s', k, it) == Look(s, k, it) by {
        SameLook(s, s');
      }
    }
    forall k | 0 <= k < |s'.m.kernels| && k < |s'.ty| && k != i && s'.ty[k] != MUSTDO && !MayLose(f.g, s'.m, k)
      ensures PassedOn(f, s', k)
    {
      SameLook(s, s');
      PassedGrows(f, s, s', k);
    }
  }

  lemma SameLook(s: Snap, s': Snap)
    requires s'.sm == s.sm && s'.ps == s.ps
    ensures forall k, it :: Look(s', k, it) == Look(s, k, it)
  {
  }

  lemma {:induction false} RunPasses(f: Facts, s: Snap, n: nat)
    requires RunIn(f, s, n)
    ensures AllPassed(f, s, -1)
    decreases n
  {
    hide PassedOn, Round;
    if n > 0 {
      var t, i :| RunIn(f, t, n - 1) && Round(f, t, i, s);
      RunPasses(f, t, n - 1);
      RoundPasses(f, t, i, s);
    }
  }

  // ------------------------------------------------------------------ everything that spreads

  /** No state is waiting. */
  ghost predicate Still(s: Snap) {
    |s.m.kernels| <= |s.ty| && forall i :: 0 <= i < |s.m.kernels| ==> s.ty[i] != MUSTDO
  }

  /** No state's mark can be lost: a condition on the LR(0) automaton alone. */
  ghost predicate NoneMayLose(g: Grammar, m: Automaton) {
    forall i :: 0 <= i < |m.kernels| ==> !MayLose(g, m, i)
  }

  lemma ClosureInMap(f: Facts, kernel: set<Lr0>, mp: LookMap, it: Lr0)
    requires KernelOk(f.g, kernel) && ClosedMap(f, mp) && (forall k :: k in kernel ==> k in mp)
    requires InClosure(f.g, kernel, it) && ValidItem(f.g, it)
    ensures it in mp
  {
    hide InClosure, PassesOn;
    var have := set k | k in mp && ValidItem(f.g, k);
    forall k, r: nat | k in have && HasRule(f.g, r) && Next(f.g, k) >= NTBASE && Lhs(f.g, r) == Next(f.g, k)
      ensures Lr0(r, 0) in have
    {
      assert Introduces(f.g, k, r);
    }
    ClosedHasClosure(f.g, kernel, have, it);
  }

  lemma MapTakes(f: Facts, mp: LookMap, p: Lr0, r: nat, la: set<nat>, t: nat)
    requires ClosedMap(f, mp) && p in mp && Introduces(f.g, p, r) && la <= mp[p] && t in PassesOn(f, p, la)
    ensures Lr0(r, 0) in mp && t in mp[Lr0(r, 0)]
  {
    if ValidItem(f.g, p) && p.dot < |Rhs(f.g, p.rule)| {
      RestLookMonotone(f, RestOf(f.g, p), la, mp[p]);
    }
  }

  /** In a still automaton that has handed on everything, what spreads to an item is in every set
      of LR(1) items that its state has handed on. */
  lemma {:induction false} SpreadIsPassed(f: Facts, s: Snap, i: int, it: Lr0, t: nat, n: nat, mp: LookMap)
    requires Proper(f.g, s) && PassedBy(f, s, i, mp) && SpreadsIn(f, s.m, i, it, t, n)
    requires forall h :: 0 <= h < |s.m.kernels| ==> PassedOn(f, s, h)
    ensures it in mp && t in mp[it]
    ensures it.dot > 0 ==> t in Look(s, i, it)
    decreases n
  {
    hide Proper, InClosure, PassesOn, Trans, Look, ClosedMap, HandedOn, Introduces;
    var kernel := s.m.kernels[i];
    if it.dot > 0 {
      SpreadOnlyAcross(f, s.m, i, it, t, n);
      var h :| Moves(f.g, s.m, h, it, i) && SpreadsIn(f, s.m, h, Back(it), t, n - 1);
      assert PassedOn(f, s, h);
      var mq :| PassedBy(f, s, h, mq);
      SpreadIsPassed(f, s, h, Back(it), t, n - 1, mq);
      ArrivesAt(f, s, h, it, i, mq, t);
    } else {
      var p := SpreadOnlyWithin(f, s.m, i, it, t, n);
      if t in PassesOn(f, p, {}) {
        ItemInMap(f, s, i, p, mp);
        MapTakes(f, mp, p, it.rule, {}, t);
      } else {
        SpreadIsPassed(f, s, i, p, t, n - 1, mp);
        MapTakes(f, mp, p, it.rule, {t}, t);
      }
    }
  }

  lemma ItemInMap(f: Facts, s: Snap, i: int, p: Lr0, mp: LookMap)
    requires Proper(f.g, s) && PassedBy(f, s, i, mp) && InClosure(f.g, s.m.kernels[i], p) && ValidItem(f.g, p)
    ensures p in mp
  {
    ClosureInMap(f, s.m.kernels[i], mp, p);
  }

  lemma SpreadOnlyAcross(f: Facts, m: Automaton, i: int, it: Lr0, t: nat, n: nat)
    requires SpreadsIn(f, m, i, it, t, n) && it.dot > 0
    ensures n > 0 && exists h :: Moves(f.g, m, h, it, i) && SpreadsIn(f, m, h, Back(it), t, n - 1)
  {
  }

  lemma SpreadOnlyWithin(f: Facts, m: Automaton, i: int, it: Lr0, t: nat, n: nat) returns (p: Lr0)
    requires SpreadsIn(f, m, i, it, t, n) && it.dot == 0
    ensures 0 <= i < |m.kernels| && Introduces(f.g, p, it.rule) && ValidItem(f.g, p)
    ensures || (t in PassesOn(f, p, {}) && InClosure(f.g, m.kernels[i], p))
            || (n > 0 && t in PassesOn(f, p, {t}) && SpreadsIn(f, m, i, p, t, n - 1))
  {
    if Starts(f, m, i, it, t) {
      p :| InClosure(f.g, m.kernels[i], p) && Introduces(f.g, p, it.rule) && t in PassesOn(f, p, {});
    } else {
      p :| Hands(f, p, it.rule, t) && SpreadsIn(f, m, i, p, t, n - 1);
    }
  }

  lemma ProperTarget(g: Grammar, s: Snap, i: int)
    requires Proper(g, s) && 0 < i < |s.m.kernels|
    ensures DistinctKernels(s.m) && |s.m.access| == |s.m.kernels| && s.m.access[i] > ENDTOK
  {
    hide DistinctKernels, KernelsOk, AllEntered, KernelsMatch;
    assert HasPredecessor(g, s.m, i);
  }

  lemma MovesInto(g: Grammar, m: Automaton, h: int, it: Lr0, i: int)
    requires it.dot > 0 && Moves(g, m, h, it, i) && 0 <= h < |m.kernels| && InClosure(g, m.kernels[h], Back(it))
    ensures 0 < i < |m.kernels| == |m.access| && m.access[i] == Next(g, Back(it)) && it in m.kernels[i]
    ensures ValidItem(g, Back(it))
  {
    assert InGoto(g, m.kernels[h], Next(g, Back(it)), it) <==> it in m.kernels[i];
    assert forall x :: x in m.kernels[i] <==> InGoto(g, m.kernels[h], Next(g, Back(it)), x);
  }

  /** What was handed on over the transition is there. */
  lemma ArrivesAt(f: Facts, s: Snap, h: int, it: Lr0, i: int, mq: LookMap, t: nat)
    requires Proper(f.g, s) && it.dot > 0 && Moves(f.g, s.m, h, it, i) && PassedBy(f, s, h, mq)
    requires 0 <= h < |s.m.kernels| && InClosure(f.g, s.m.kernels[h], Back(it))
    requires Back(it) in mq && t in mq[Back(it)]
    ensures t in Look(s, i, it) && 0 <= i < |s.m.kernels| && it in s.m.kernels[i]
  {
    hide Look, ClosedMap, Proper, Trans, DistinctKernels;
    var b := Back(it);
    MovesInto(f.g, s.m, h, it, i);
    ProperTarget(f.g, s, i);
    assert HandedOn(f.g, s, h, b, mq[b]);
    var j :| Trans(f.g, s.m, h, Next(f.g, b), j) && mq[b] <= Look(s, j, Lr0(b.rule, b.dot + 1));
    TransUnique(f.g, s.m, h, Next(f.g, b), j, i);
  }

  lemma StillPassed(f: Facts, s: Snap)
    requires AllPassed(f, s, -1) && Still(s) && NoneMayLose(f.g, s.m)
    ensures forall h :: 0 <= h < |s.m.kernels| ==> PassedOn(f, s, h)
  {
    hide PassedOn, MayLose;
  }

  lemma IntroducedRule(g: Grammar, p: Lr0, r: nat)
    requires WellFormed(g) && Introduces(g, p, r)
    ensures r > 0
  {
    RuleShape(g, p.rule);
    RuleShape(g, r);
    if p.dot < |Rhs(g, p.rule)| {
      assert Next(g, p) in Rhs(g, p.rule);
    }
  }

  /** The lookaheads that a finished run stores are exactly those that spread to the kernel items,
      when no state's mark can be lost. */
  lemma {:induction false} LooksExact(f: Facts, s: Snap, i: int, it: Lr0, t: nat)
    requires WellFormed(f.g) && Run(f, s) && Proper(f.g, s) && Still(s) && NoneMayLose(f.g, s.m)
    requires 0 <= i < |s.m.kernels| && it in s.m.kernels[i]
    ensures t in Look(s, i, it) <==> Spreads(f, s.m, i, it, t)
  {
    hide Proper, SpreadsIn, PassedBy, MayLose, Look;
    var n: nat :| RunIn(f, s, n);
    StoredHasSpread(f, s, n);
    RunPasses(f, s, n);
    StillPassed(f, s);
    if Spreads(f, s.m, i, it, t) {
      var k: nat :| SpreadsIn(f, s.m, i, it, t, k);
      assert PassedOn(f, s, i);
      var mp :| PassedBy(f, s, i, mp);
      SpreadIsPassed(f, s, i, it, t, k, mp);
      NothingToStart(f, s, i, it, t, k);
    }
  }

  /** Nothing follows the start of the grammar's own rule. */
  lemma NothingToStart(f: Facts, s: Snap, i: int, it: Lr0, t: nat, n: nat)
    requires Proper(f.g, s) && 0 <= i < |s.m.kernels| && it in s.m.kernels[i] && SpreadsIn(f, s.m, i, it, t, n)
    requires WellFormed(f.g)
    ensures it.dot > 0
  {
    hide InClosure, PassesOn, SpreadsIn;
    assert KernelOk(f.g, s.m.kernels[i]);
    if it.dot == 0 {
      var p := SpreadOnlyWithin(f, s.m, i, it, t, n);
      IntroducedRule(f.g, p, it.rule);
    }
  }

  lemma ProperKernel(g: Grammar, s: Snap, i: int)
    requires Proper(g, s) && 0 <= i < |s.m.kernels|
    ensures KernelMatches(g, KernAt(s.sm, s.ps, i), s.m.kernels[i])
  {
    hide KernelMatches;
  }

  lemma ClosureInv(f: Facts, kernel: seq<Item>, ws: seq<Wset>)
    requires ClosureDone(f, false, kernel, ws)
    ensures Inv(f, kernel, ws)
  {
  }

  /** The closure of the stored kernel is below whatever the state has handed on. */
  lemma {:induction false} ClosureHandedOn(f: Facts, s: Snap, i: int, ws: seq<Wset>, mp: LookMap)
    requires Proper(f.g, s) && PassedBy(f, s, i, mp) && ClosureDone(f, false, KernAt(s.sm, s.ps, i), ws)
    ensures PassedBy(f, s, i, MapOf(ws))
  {
    hide KernAt, ClosedMap, Apart, MapOf;
    var kernel, least := KernAt(s.sm, s.ps, i), MapOf(ws);
    ProperKernel(f.g, s, i);
    ClosureIsLeast(f, kernel, ws);
    forall k | 0 <= k < |kernel|
      ensures ItemOf(kernel[k].pitem) in mp && kernel[k].look <= mp[ItemOf(kernel[k].pitem)]
    {
      KernLookAt(f.g, kernel, k);
      assert ItemOf(kernel[k].pitem) in KernelSet(kernel);
      assert kernel[k].look == Look(s, i, ItemOf(kernel[k].pitem));
    }
    assert MapWithin(least, mp);
    forall it | it in s.m.kernels[i]
      ensures it in least && Look(s, i, it) <= least[it]
    {
      var k :| 0 <= k < |kernel| && ItemOf(kernel[k].pitem) == it;
      KernLookAt(f.g, kernel, k);
    }
    forall it | it in least && ValidItem(f.g, it) && Next(f.g, it) > ENDTOK
      ensures HandedOn(f.g, s, i, it, least[it])
    {
      assert HandedOn(f.g, s, i, it, mp[it]);
    }
  }

  /** What closure makes of the kernel of state i at the end of such a run: every item of the
      state's LR(0) closure, with exactly the lookaheads that spread to it. */
  lemma {:induction false} ClosureExact(f: Facts, s: Snap, i: int, ws: seq<Wset>, k: nat, t: nat)
    requires Run(f, s) && Proper(f.g, s) && Still(s) && NoneMayLose(f.g, s.m)
    requires 0 <= i < |s.m.kernels| && ClosureDone(f, false, KernAt(s.sm, s.ps, i), ws) && k < |ws|
    ensures t in ws[k].ws <==> Spreads(f, s.m, i, ItemOf(ws[k].pitem), t)
  {
    hide Proper, SpreadsIn, MayLose, KernAt, KernelMatches, ClosureDone, AllSpread, AllPassed;
    var n: nat :| RunIn(f, s, n);
    StoredHasSpread(f, s, n);
    RunPasses(f, s, n);
    StillPassed(f, s);
    var kernel := KernAt(s.sm, s.ps, i);
    assert KernelMatches(f.g, kernel, s.m.kernels[i]) by {
      ProperKernel(f.g, s, i);
    }
    KernelSpread(f, s, i);
    ClosureSpreads(f, s.m, i, kernel, ws);
    if Spreads(f, s.m, i, ItemOf(ws[k].pitem), t) {
      var x: nat :| SpreadsIn(f, s.m, i, ItemOf(ws[k].pitem), t, x);
      assert PassedOn(f, s, i);
      var mp :| PassedBy(f, s, i, mp);
      ClosureHandedOn(f, s, i, ws, mp);
      SpreadIsPassed(f, s, i, ItemOf(ws[k].pitem), t, x, MapOf(ws));
      ClosureInv(f, kernel, ws);
      MapOfAt(f, kernel, ws, k);
    }
  }

  // ------------------------------------------------------------------ LR(1) and LALR(1)

  /** t is a canonical LR(1) lookahead of the item after the symbols of the path: other paths to
      the same state have no part in it. */
  ghost predicate ValidIn(f: Facts, m: Automaton, states: seq<int>, syms: seq<int>, it: Lr0, t: nat, n: nat)
    decreases n
  {
    && |states| == |syms| + 1 && 0 <= states[|syms|] < |m.kernels| && InClosure(f.g, m.kernels[states[|syms|]], it)
    && (|| Starts(f, m, states[|syms|], it, t)
        || (n > 0 && it.dot == 0 && exists p :: Hands(f, p, it.rule, t) && ValidIn(f, m, states, syms, p, t, n - 1))
        || (n > 0 && it.dot > 0 && ComesBy(f.g, syms, it)
            && ValidIn(f, m, states[..|syms|], syms[..|syms| - 1], Back(it), t, n - 1)))
  }

  ghost predicate ComesBy(g: Grammar, syms: seq<int>, it: Lr0)
    requires it.dot > 0
  {
    ValidItem(g, it) && syms != [] && syms[|syms| - 1] == Next(g, Back(it))
  }

  ghost predicate Lr1(f: Facts, m: Automaton, states: seq<int>, syms: seq<int>, i: int, it: Lr0, t: nat) {
    Path(f.g, m, states, syms) && states[|syms|] == i && exists n: nat :: ValidIn(f, m, states, syms, it, t, n)
  }

  lemma {:induction false} SpreadHasPath(f: Facts, m: Automaton, i: int, it: Lr0, t: nat, n: nat)
    returns (states: seq<int>, syms: seq<int>)
    requires HasPredecessors(f.g, m) && |m.kernels| == |m.access| && SpreadsIn(f, m, i, it, t, n)
    ensures Path(f.g, m, states, syms) && states[|syms|] == i && ValidIn(f, m, states, syms, it, t, n)
    decreases n
  {
    hide Trans, InClosure, PassesOn, Introduces, Hands, HasPredecessors;
    if Starts(f, m, i, it, t) {
      syms := Reached(f.g, m, i);
      states :| Path(f.g, m, states, syms) && states[|syms|] == i;
    } else if it.dot == 0 {
      var p :| Hands(f, p, it.rule, t) && SpreadsIn(f, m, i, p, t, n - 1);
      states, syms := SpreadHasPath(f, m, i, p, t, n - 1);
    } else {
      var h :| Moves(f.g, m, h, it, i) && SpreadsIn(f, m, h, Back(it), t, n - 1);
      var before, word := SpreadHasPath(f, m, h, Back(it), t, n - 1);
      states, syms := before + [i], word + [Next(f.g, Back(it))];
      assert states[..|syms|] == before && syms[..|syms| - 1] == word;
      assert Path(f.g, m, states, syms);
    }
  }

  lemma {:induction false} PathSpreads(f: Facts, m: Automaton, states: seq<int>, syms: seq<int>, it: Lr0, t: nat,
                                       n: nat)
    requires Path(f.g, m, states, syms) && ValidIn(f, m, states, syms, it, t, n)
    ensures SpreadsIn(f, m, states[|syms|], it, t, n)
    decreases n
  {
    hide Trans, InClosure, PassesOn, Introduces, Hands;
    var k, i := |syms|, states[|syms|];
    if Starts(f, m, i, it, t) {
    } else if it.dot == 0 {
      var p :| Hands(f, p, it.rule, t) && ValidIn(f, m, states, syms, p, t, n - 1);
      PathSpreads(f, m, states, syms, p, t, n - 1);
    } else {
      PathPrefix(f.g, m, states, syms, k - 1);
      PathSpreads(f, m, states[..k], syms[..k - 1], Back(it), t, n - 1);
      assert Moves(f.g, m, states[k - 1], it, i);
    }
  }

  /** What spreads are the LALR(1) lookaheads: those of the canonical LR(1) items, merged over all
      paths that lead to the same state. */
  lemma {:induction false} SpreadsAreLalr(f: Facts, m: Automaton, i: int, it: Lr0, t: nat)
    requires HasPredecessors(f.g, m) && |m.kernels| == |m.access|
    ensures Spreads(f, m, i, it, t) <==> exists states, syms :: Lr1(f, m, states, syms, i, it, t)
  {
    hide SpreadsIn, ValidIn, HasPredecessors, Path;
    if Spreads(f, m, i, it, t) {
      var n: nat :| SpreadsIn(f, m, i, it, t, n);
      var states, syms := SpreadHasPath(f, m, i, it, t, n);
      assert Lr1(f, m, states, syms, i, it, t);
    }
    if exists states, syms :: Lr1(f, m, states, syms, i, it, t) {
      var states, syms :| Lr1(f, m, states, syms, i, it, t);
      LrOne(f, m, states, syms, i, it, t);
    }
  }

  lemma LrOne(f: Facts, m: Automaton, states: seq<int>, syms: seq<int>, i: int, it: Lr0, t: nat)
    requires Lr1(f, m, states, syms, i, it, t)
    ensures Spreads(f, m, i, it, t)
  {
    hide SpreadsIn, ValidIn;
    var n: nat :| ValidIn(f, m, states, syms, it, t, n);
    PathSpreads(f, m, states, syms, it, t, n);
  }
}
